/** The comparison-operator rewrite of the coworking listing: every whole word
    `gt`, `gte`, `lt`, `lte` or `in` in the serialised filter gets a `$` in
    front of it (the regular expression `\b(gt|gte|lt|lte|in)\b` with a
    replacement of `$` followed by the match). A word is a maximal run of the
    characters `[A-Za-z0-9_]`, which is what `\b` separates in a JavaScript
    regular expression without the `u` flag. */
module OperatorRewrite {

  predicate IsWordChar(c: char) {
    ('a' <= c <= 'z') || ('A' <= c <= 'Z') || ('0' <= c <= '9') || c == '_'
  }

  predicate IsWord(w: string) {
    w != [] && forall i :: 0 <= i < |w| ==> IsWordChar(w[i])
  }

  predicate IsOperator(w: string) {
    w == "gt" || w == "gte" || w == "lt" || w == "lte" || w == "in"
  }

  /** True when `s` does not continue a word at its front. */
  predicate StartsAtBoundary(s: string) {
    s == [] || !IsWordChar(s[0])
  }

  /** Length of the word at the front of `s` (0 when `s` does not start with one). */
  function WordRun(s: string): (n: nat)
    ensures n <= |s|
    ensures forall i :: 0 <= i < n ==> IsWordChar(s[i])
    ensures StartsAtBoundary(s[n..])
  {
    if s != [] && IsWordChar(s[0]) then 1 + WordRun(s[1..]) else 0
  }

  /** What one word is replaced with. */
  function Marked(w: string): string {
    if IsOperator(w) then "$" + w else w
  }

  /** The rewritten text: operator words get a `$` prefix, everything else is copied. */
  function Rewrite(s: string): string
    decreases |s|
  {
    if s == [] then []
    else if !IsWordChar(s[0]) then [s[0]] + Rewrite(s[1..])
    else
      var n := WordRun(s);
      Marked(s[..n]) + Rewrite(s[n..])
  }

  /** The inverse of `Rewrite`: drops the `$` in front of every operator word. */
  function Restore(r: string): string
    decreases |r|
  {
    if r == [] then []
    else if r[0] == '$' && WordRun(r[1..]) > 0 && IsOperator(r[1..1 + WordRun(r[1..])]) then
      var n := WordRun(r[1..]);
      r[1..1 + n] + Restore(r[1 + n..])
    else if !IsWordChar(r[0]) then [r[0]] + Restore(r[1..])
    else
      var n := WordRun(r);
      r[..n] + Restore(r[n..])
  }

  lemma {:induction false} WordRunAppend(a: string, y: string)
    requires WordRun(a) < |a| || StartsAtBoundary(y)
    ensures WordRun(a + y) == WordRun(a)
  {
    if a != [] && IsWordChar(a[0]) {
      assert (a + y)[1..] == a[1..] + y;
      WordRunAppend(a[1..], y);
    } else if a == [] {
      assert a + y == y;
    }
  }

  lemma WordRunOfWord(w: string, y: string)
    requires IsWord(w) && StartsAtBoundary(y)
    ensures WordRun(w + y) == |w|
  {
    WordRunAppend(w, y);
  }

  /** Rewriting keeps a separator at the front where it is. */
  lemma RewriteBoundary(s: string)
    requires StartsAtBoundary(s)
    ensures StartsAtBoundary(Rewrite(s))
    ensures s != [] ==> Rewrite(s) != [] && Rewrite(s)[0] == s[0]
  {
  }

  /** A separator is copied and the rest rewritten. */
  lemma RewriteSeparatorThen(c: char, y: string)
    requires !IsWordChar(c)
    ensures Rewrite([c] + y) == [c] + Rewrite(y)
  {
    assert ([c] + y)[1..] == y;
  }

  /** A whole word is replaced by `Marked` of it and the rest rewritten. */
  lemma RewriteWordThen(w: string, y: string)
    requires IsWord(w) && StartsAtBoundary(y)
    ensures Rewrite(w + y) == Marked(w) + Rewrite(y)
  {
    WordRunOfWord(w, y);
    assert (w + y)[..|w|] == w && (w + y)[|w|..] == y;
  }

  /** `Restore` undoes `Marked` on a whole word. */
  lemma RestoreMarkedThen(w: string, y: string)
    requires IsWord(w) && StartsAtBoundary(y)
    ensures Restore(Marked(w) + y) == w + Restore(y)
  {
    WordRunOfWord(w, y);
    if IsOperator(w) {
      var r := "$" + w + y;
      assert r[1..] == w + y;
      assert r[1..1 + |w|] == w && r[1 + |w|..] == y;
    } else {
      var r := w + y;
      assert r[..|w|] == w && r[|w|..] == y;
    }
  }

  /** `Restore` copies a separator unless it is a `$` in front of an operator word. */
  lemma RestoreSeparatorThen(c: char, y: string)
    requires !IsWordChar(c)
    requires c != '$' || WordRun(y) == 0 || !IsOperator(y[..WordRun(y)])
    ensures Restore([c] + y) == [c] + Restore(y)
  {
    var r := [c] + y;
    assert r[1..] == y;
    assert r[1..1 + WordRun(y)] == y[..WordRun(y)];
  }

  /** The rewritten text never puts `$` in front of an operator word that was
      not rewritten itself, so a separator before it is restored as it was. */
  lemma RewriteNoFalseMark(t: string)
    ensures var y := Rewrite(t); WordRun(y) == 0 || !IsOperator(y[..WordRun(y)])
  {
    if t != [] && IsWordChar(t[0]) {
      var n := WordRun(t);
      var w := t[..n];
      assert IsWord(w) && t == w + t[n..];
      RewriteWordThen(w, t[n..]);
      RewriteBoundary(t[n..]);
      if !IsOperator(w) {
        WordRunOfWord(w, Rewrite(t[n..]));
        assert (w + Rewrite(t[n..]))[..|w|] == w;
      }
    } else {
      RewriteBoundary(t);
    }
  }

  /** Nothing is lost: the original filter text can be read back from the
      rewritten one. */
  lemma {:induction false} RestoreRewrite(s: string)
    ensures Restore(Rewrite(s)) == s
    decreases |s|
  {
    if s == [] {
    } else if !IsWordChar(s[0]) {
      var t := s[1..];
      assert s == [s[0]] + t;
      RewriteSeparatorThen(s[0], t);
      RewriteNoFalseMark(t);
      RestoreSeparatorThen(s[0], Rewrite(t));
      RestoreRewrite(t);
    } else {
      var n := WordRun(s);
      var w, rest := s[..n], s[n..];
      assert IsWord(w) && s == w + rest;
      RewriteWordThen(w, rest);
      RewriteBoundary(rest);
      RestoreMarkedThen(w, Rewrite(rest));
      RestoreRewrite(rest);
    }
  }

  /** Different filter texts never rewrite to the same text, so the rewritten
      keys of a query object never collide. */
  lemma RewriteInjective(a: string, b: string)
    ensures Rewrite(a) == Rewrite(b) ==> a == b
  {
    RestoreRewrite(a);
    RestoreRewrite(b);
  }

  /** A single word becomes `$` followed by the word exactly when it is one of
      the five operators; any other word is copied unchanged ("gtx", "lte2",
      "index" stay as they are). */
  lemma RewriteWord(w: string)
    requires IsWord(w)
    ensures Rewrite(w) == Marked(w)
  {
    RewriteWordThen(w, []);
    assert w + [] == w;
  }

  /** The rewrite works word by word: it never looks across a separator. */
  lemma {:induction false} RewriteAtSeparator(a: string, c: char, b: string)
    requires !IsWordChar(c)
    ensures Rewrite(a + [c] + b) == Rewrite(a) + [c] + Rewrite(b)
    decreases |a|
  {
    if a == [] {
      assert a + [c] + b == [c] + b;
      RewriteSeparatorThen(c, b);
    } else if !IsWordChar(a[0]) {
      var a' := a[1..];
      assert a == [a[0]] + a' && a + [c] + b == [a[0]] + (a' + [c] + b);
      RewriteSeparatorThen(a[0], a');
      RewriteSeparatorThen(a[0], a' + [c] + b);
      RewriteAtSeparator(a', c, b);
    } else {
      var m := WordRun(a);
      var w, a' := a[..m], a[m..];
      assert IsWord(w) && a == w + a' && a + [c] + b == w + (a' + [c] + b);
      RewriteWordThen(w, a');
      RewriteWordThen(w, a' + [c] + b);
      RewriteAtSeparator(a', c, b);
    }
  }

  /** Text without any word characters is copied unchanged. */
  lemma {:induction false} RewriteNoWords(s: string)
    requires forall i :: 0 <= i < |s| ==> !IsWordChar(s[i])
    ensures Rewrite(s) == s
  {
    if s != [] {
      RewriteNoWords(s[1..]);
      assert s == [s[0]] + s[1..];
    }
  }
}

/** The JavaScript string operations the handlers rely on: `String.prototype.trim`
    (Mongoose's `trim` option), `localeCompare` on time-of-day strings and
    `parseInt(s, 10)` on query parameters.

    `localeCompare` is modelled as plain lexicographic order on characters.
    That order agrees with time-of-day order only for fixed-width, zero-padded
    "HH:MM" strings; `ClockOrder` proves this and `UnpaddedTimesMisorder` shows
    what goes wrong without the padding. */
module Text {
  import opened Records

  // ---------------------------------------------------------------------------
  // Whitespace and trimming

  /** The characters `trim` and `parseInt` skip: ECMAScript WhiteSpace and
      LineTerminator. */
  predicate IsJsWhitespace(c: char) {
    c == ' ' || c == '\t' || c == '\n' || c == '\r' || c == '\U{000B}' || c == '\U{000C}'
    || c == '\U{00A0}' || c == '\U{1680}' || ('\U{2000}' <= c <= '\U{200A}')
    || c == '\U{2028}' || c == '\U{2029}' || c == '\U{202F}' || c == '\U{205F}'
    || c == '\U{3000}' || c == '\U{FEFF}'
  }

  /** Neither end of `s` is whitespace. */
  predicate IsTrimmed(s: string) {
    s == [] || (!IsJsWhitespace(s[0]) && !IsJsWhitespace(s[|s| - 1]))
  }

  /** `s` without its leading whitespace. */
  function TrimStart(s: string): (r: string)
    ensures |r| <= |s| && r == s[|s| - |r|..]
    ensures forall i :: 0 <= i < |s| - |r| ==> IsJsWhitespace(s[i])
    ensures r == [] || !IsJsWhitespace(r[0])
  {
    if s != [] && IsJsWhitespace(s[0]) then TrimStart(s[1..]) else s
  }

  /** `s` without its trailing whitespace. */
  function TrimEnd(s: string): (r: string)
    ensures |r| <= |s| && r == s[..|r|]
    ensures forall i :: |r| <= i < |s| ==> IsJsWhitespace(s[i])
    ensures r == [] || !IsJsWhitespace(r[|r| - 1])
  {
    if s != [] && IsJsWhitespace(s[|s| - 1]) then TrimEnd(s[..|s| - 1]) else s
  }

  /** `String.prototype.trim`: `s` with whitespace cut from both ends. The
      result has none at either end, and a string without whitespace at its
      ends is kept as it is; `TrimIsSlice` states which part of `s` it is. */
  function Trim(s: string): (r: string)
    ensures IsTrimmed(r)
    ensures IsTrimmed(s) ==> r == s
  {
    var t := TrimStart(s);
    var r := TrimEnd(t);
    TrimKeepsTrimmed(s);
    assert r == [] || r[0] == t[0];
    r
  }

  /** `r` occurs in `s` at index `i`. */
  predicate IsSliceAt(s: string, i: int, r: string) {
    0 <= i && i + |r| <= |s| && r == s[i..i + |r|]
  }

  /** The result of `trim` is the slice of `s` that starts after all of its
      leading whitespace. */
  lemma {:induction false} TrimIsSlice(s: string)
    ensures IsSliceAt(s, |s| - |TrimStart(s)|, Trim(s))
  {
    SliceChain(s, TrimStart(s), Trim(s));
  }

  /** What `trim` removes is whitespace: everything before the slice
      `TrimIsSlice` names, and everything after it. */
  lemma {:induction false} TrimRemovesWhitespace(s: string)
    ensures var r := Trim(s); var i := |s| - |TrimStart(s)|;
            && (forall k :: 0 <= k < i ==> IsJsWhitespace(s[k]))
            && (forall k :: i + |r| <= k < |s| ==> IsJsWhitespace(s[k]))
  {
    var t := TrimStart(s);
    var r := TrimEnd(t);
    var i := |s| - |t|;
    assert r == Trim(s);
    forall k | i + |r| <= k < |s|
      ensures IsJsWhitespace(s[k])
    {
      assert s[k] == t[k - i];
    }
  }

  /** A prefix `r` of a suffix `t` of `s` is a slice of `s`, and what follows
      `r` in `t` is what follows it in `s`. */
  lemma SliceChain(s: string, t: string, r: string)
    requires |t| <= |s| && t == s[|s| - |t|..] && |r| <= |t| && r == t[..|r|]
    ensures IsSliceAt(s, |s| - |t|, r)
    ensures t[|r|..] == s[|s| - |t| + |r|..]
  {
  }

  lemma TrimKeepsTrimmed(s: string)
    ensures IsTrimmed(s) ==> TrimStart(s) == s && TrimEnd(s) == s
  {
  }

  // ---------------------------------------------------------------------------
  // localeCompare, as lexicographic order

  /** The sign `a.localeCompare(b)` has under plain lexicographic order:
      negative when `a` sorts first, zero when equal, positive otherwise. */
  function Compare(a: string, b: string): (r: int)
    ensures r == -1 || r == 0 || r == 1
    ensures r == 0 <==> a == b
  {
    if a == [] && b == [] then 0
    else if a == [] then -1
    else if b == [] then 1
    else if a[0] < b[0] then -1
    else if b[0] < a[0] then 1
    else
      assert a == [a[0]] + a[1..] && b == [b[0]] + b[1..];
      Compare(a[1..], b[1..])
  }

  /** Lexicographic order stated directly: `a` is a proper prefix of `b`, or
      the first position where they differ holds a smaller character in `a`. */
  ghost predicate LexLess(a: string, b: string) {
    (|a| < |b| && a == b[..|a|])
    || exists k :: 0 <= k < |a| && k < |b| && a[..k] == b[..k] && a[k] < b[k]
  }

  lemma {:induction false} CompareIsLexicographic(a: string, b: string)
    ensures Compare(a, b) < 0 <==> LexLess(a, b)
  {
    if a == [] || b == [] {
    } else if a[0] < b[0] {
      assert a[..0] == b[..0];
    } else if b[0] < a[0] {
      if LexLess(a, b) {
        var k :| 0 <= k < |a| && k < |b| && a[..k] == b[..k] && a[k] < b[k];
        assert k == 0 || a[..k][0] == b[..k][0];
      }
    } else {
      var a', b' := a[1..], b[1..];
      CompareIsLexicographic(a', b');
      if LexLess(a', b') {
        if |a'| < |b'| && a' == b'[..|a'|] {
          assert a == b[..|a|];
        } else {
          var k :| 0 <= k < |a'| && k < |b'| && a'[..k] == b'[..k] && a'[k] < b'[k];
          assert a[..k + 1] == [a[0]] + a'[..k] && b[..k + 1] == [b[0]] + b'[..k];
          assert a[k + 1] < b[k + 1];
        }
      }
      if LexLess(a, b) {
        if |a| < |b| && a == b[..|a|] {
          assert a' == b[..|a|][1..];
          assert b[..|a|][1..] == b'[..|a'|];
        } else {
          var k :| 0 <= k < |a| && k < |b| && a[..k] == b[..k] && a[k] < b[k];
          assert k != 0;
          assert a'[..k - 1] == a[1..k] && b'[..k - 1] == b[1..k];
          assert a'[k - 1] < b'[k - 1];
        }
      }
    }
  }

  /** Swapping the operands of `localeCompare` flips the sign. */
  lemma {:induction false} CompareAntisymmetric(a: string, b: string)
    ensures Compare(a, b) == -Compare(b, a)
  {
    if a != [] && b != [] && a[0] == b[0] {
      CompareAntisymmetric(a[1..], b[1..]);
    }
  }

  /** Lexicographic order is transitive. */
  lemma {:induction false} CompareTransitive(a: string, b: string, c: string)
    requires Compare(a, b) <= 0 && Compare(b, c) <= 0
    ensures Compare(a, c) <= 0
  {
    if a != [] && b != [] && c != [] && a[0] == b[0] && b[0] == c[0] {
      CompareTransitive(a[1..], b[1..], c[1..]);
    }
  }

  /** Two equal-width leading fields compare first; the rest decides only on a tie. */
  lemma {:induction false} CompareAppend(x: string, y: string, x': string, y': string)
    requires |x| == |x'|
    ensures Compare(x + y, x' + y') == if x == x' then Compare(y, y') else Compare(x, x')
  {
    if x == [] {
      assert x + y == y && x' + y' == y';
    } else {
      assert (x + y)[0] == x[0] && (x' + y')[0] == x'[0];
      assert (x + y)[1..] == x[1..] + y && (x' + y')[1..] == x'[1..] + y';
      CompareAppend(x[1..], y, x'[1..], y');
      assert x == [x[0]] + x[1..] && x' == [x'[0]] + x'[1..];
    }
  }

  // ---------------------------------------------------------------------------
  // Decimal digits and time of day

  predicate IsDigit(c: char) {
    '0' <= c <= '9'
  }

  function DigitValue(c: char): (v: nat)
    requires IsDigit(c)
    ensures v < 10
  {
    (c as int) - ('0' as int)
  }

  predicate AllDigits(s: string) {
    forall i :: 0 <= i < |s| ==> IsDigit(s[i])
  }

  /** The value of a two-digit zero-padded numeral. */
  function TwoDigitValue(s: string): (v: nat)
    requires |s| == 2 && AllDigits(s)
    ensures v < 100
  {
    10 * DigitValue(s[0]) + DigitValue(s[1])
  }

  lemma TwoDigitCompare(s: string, t: string)
    requires |s| == 2 && AllDigits(s) && |t| == 2 && AllDigits(t)
    ensures Compare(s, t) < 0 <==> TwoDigitValue(s) < TwoDigitValue(t)
    ensures Compare(s, t) == 0 <==> TwoDigitValue(s) == TwoDigitValue(t)
  {
    assert s[1..][1..] == [] && t[1..][1..] == [];
    if s[0] == t[0] && s[1] == t[1] {
      assert s == t;
    }
  }

  /** A fixed-width, zero-padded time of day "HH:MM", 00:00 to 23:59. */
  predicate IsClockTime(s: string) {
    |s| == 5 && AllDigits(s[..2]) && s[2] == ':' && AllDigits(s[3..])
    && TwoDigitValue(s[..2]) < 24 && TwoDigitValue(s[3..]) < 60
  }

  /** Minutes since midnight of a clock time. */
  function Minutes(s: string): (m: nat)
    requires IsClockTime(s)
    ensures m < 24 * 60
  {
    60 * TwoDigitValue(s[..2]) + TwoDigitValue(s[3..])
  }

  /** On clock times, the string comparison the handlers use is time-of-day
      order: this is the fixed-width assumption the guards depend on. */
  lemma ClockOrder(a: string, b: string)
    requires IsClockTime(a) && IsClockTime(b)
    ensures Compare(a, b) < 0 <==> Minutes(a) < Minutes(b)
    ensures Compare(a, b) == 0 <==> Minutes(a) == Minutes(b)
  {
    assert a == a[..2] + a[2..] && b == b[..2] + b[2..];
    CompareAppend(a[..2], a[2..], b[..2], b[2..]);
    assert a[2..] == [':'] + a[3..] && b[2..] == [':'] + b[3..];
    CompareAppend([':'], a[3..], [':'], b[3..]);
    TwoDigitCompare(a[..2], b[..2]);
    TwoDigitCompare(a[3..], b[3..]);
    if a[..2] == b[..2] && a[3..] == b[3..] {
      assert a == b;
    }
  }

  /** Without zero padding lexicographic order is wrong: "9:00" sorts after
      "10:00" although it is the earlier time. */
  lemma UnpaddedTimesMisorder()
    ensures Compare("9:00", "10:00") > 0
  {
  }

  // ---------------------------------------------------------------------------
  // parseInt(s, 10) and its inverse

  /** Length of the run of digits at the front of `s`. */
  function LeadingDigits(s: string): (n: nat)
    ensures n <= |s| && AllDigits(s[..n])
    ensures n < |s| ==> !IsDigit(s[n])
  {
    if s != [] && IsDigit(s[0]) then 1 + LeadingDigits(s[1..]) else 0
  }

  /** The value of a string of decimal digits, most significant first. */
  function DecimalValue(d: string): nat
    requires AllDigits(d)
  {
    if d == [] then 0 else 10 * DecimalValue(d[..|d| - 1]) + DigitValue(d[|d| - 1])
  }

  /** `parseInt(s, 10)`: skip leading whitespace, take an optional sign and the
      longest run of digits that follows; `None` stands for `NaN`, which is
      what a string without such digits yields. */
  function ParseInt(s: string): Option<int> {
    var t := TrimStart(s);
    var signed := t != [] && (t[0] == '-' || t[0] == '+');
    var body := if signed then t[1..] else t;
    var n := LeadingDigits(body);
    if n == 0 then None
    else
      var v: int := DecimalValue(body[..n]);
      Some(if t[0] == '-' then -v else v)
  }

  function Digit(d: nat): (c: char)
    requires d < 10
    ensures IsDigit(c) && DigitValue(c) == d
  {
    (('0' as int) + d) as char
  }

  /** The decimal numeral of `n` (what `String(n)` gives). */
  function ShowNat(n: nat): (s: string)
    ensures s != [] && AllDigits(s)
  {
    if n < 10 then [Digit(n)] else ShowNat(n / 10) + [Digit(n % 10)]
  }

  function ShowInt(i: int): string {
    if i < 0 then "-" + ShowNat(-i) else ShowNat(i)
  }

  lemma {:induction false} DecimalValueShowNat(n: nat)
    ensures DecimalValue(ShowNat(n)) == n
  {
    if n >= 10 {
      var s := ShowNat(n);
      assert s[..|s| - 1] == ShowNat(n / 10);
      DecimalValueShowNat(n / 10);
    }
  }

  lemma {:induction false} LeadingDigitsOfNumeral(d: string, tail: string)
    requires AllDigits(d)
    requires tail == [] || !IsDigit(tail[0])
    ensures LeadingDigits(d + tail) == |d|
  {
    if d != [] {
      assert (d + tail)[1..] == d[1..] + tail;
      LeadingDigitsOfNumeral(d[1..], tail);
    }
  }

  /** A numeral with an optional minus sign, followed by text that does not
      start with a digit, parses to the numeral's value. */
  lemma ParseNumeral(s: string, negative: bool, d: string, tail: string)
    requires d != [] && AllDigits(d)
    requires tail == [] || !IsDigit(tail[0])
    requires s == (if negative then "-" else "") + d + tail
    ensures ParseInt(s) == Some(if negative then -(DecimalValue(d) as int) else DecimalValue(d))
  {
    var body := d + tail;
    LeadingDigitsOfNumeral(d, tail);
    assert body[..|d|] == d;
    assert !IsJsWhitespace(s[0]);
    var t := TrimStart(s);
    assert t == s;
    var signed := t != [] && (t[0] == '-' || t[0] == '+');
    assert signed == negative;
    var rest := if signed then t[1..] else t;
    assert rest == body;
    assert LeadingDigits(rest) == |d|;
  }

  lemma {:induction false} TrimStartSkips(space: string, x: string)
    requires forall i :: 0 <= i < |space| ==> IsJsWhitespace(space[i])
    requires x == [] || !IsJsWhitespace(x[0])
    ensures TrimStart(space + x) == x
  {
    if space == [] {
      assert space + x == x;
    } else {
      assert (space + x)[1..] == space[1..] + x;
      TrimStartSkips(space[1..], x);
    }
  }

  /** Text with no digit after its leading whitespace and optional sign
      parses to `NaN`: "abc", "", "-", " +x" and "[object Object]" do. */
  lemma ParseIntNaN(space: string, sign: string, rest: string)
    requires forall i :: 0 <= i < |space| ==> IsJsWhitespace(space[i])
    requires sign == "" || sign == "-" || sign == "+"
    requires rest == [] || !IsDigit(rest[0])
    requires sign == "" && rest != [] ==> !IsJsWhitespace(rest[0]) && rest[0] != '-' && rest[0] != '+'
    ensures ParseInt(space + sign + rest) == None
  {
    var x := sign + rest;
    assert space + sign + rest == space + x;
    TrimStartSkips(space, x);
    if sign != "" {
      assert x[1..] == rest;
    } else {
      assert x == rest;
    }
  }

  /** `parseInt` reads back the numeral of any integer, and ignores whatever
      non-digit text follows it ("12abc" parses as 12). */
  lemma ParseIntShowInt(i: int, tail: string)
    requires tail == [] || !IsDigit(tail[0])
    ensures ParseInt(ShowInt(i) + tail) == Some(i)
  {
    var m: nat := if i < 0 then -i else i;
    DecimalValueShowNat(m);
    ParseNumeral(ShowInt(i) + tail, i < 0, ShowNat(m), tail);
  }
}

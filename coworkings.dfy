/** The coworking directory handlers of controllers/coworkings.js. The
    listing turns the query string into a database filter (control keys
    removed, comparison operators rewritten), reads `select`, `sort`, `page`
    and `limit`, fetches one page and reports the neighbouring pages. Create,
    update and delete go through the schema's validation and the cascade hook.

    The database's evaluation of a filter, projection and sort order is not
    part of this model: the listing receives it as the function `find`, and
    the model states what the handler does around it. */
module Coworkings {
  import opened Records
  import opened Text
  import opened CoworkingModel
  import opened Store
  import OperatorRewrite

  /** A value of the parsed query string: a plain string (`?name=x`) or a
      bracketed group (`?price[gt]=5` gives `{gt: "5"}`). */
  datatype QueryValue = Plain(s: string) | Nested(entries: map<string, string>)

  type Query = map<string, QueryValue>

  /** The keys that steer the listing and are not filter conditions. */
  const ControlKeys: seq<string> := ["select", "sort", "page", "limit"]

  function Lookup(q: Query, key: string): Option<QueryValue> {
    if key in q then Some(q[key]) else None
  }

  /** The query with the control keys taken out and every other entry kept. */
  function WithoutControlKeys(q: Query): (r: Query)
    ensures forall k :: k in r <==> k in q && k !in ControlKeys
    ensures forall k :: k in r ==> r[k] == q[k]
  {
    q - {"select", "sort", "page", "limit"}
  }

  /** The copy of `req.query` from which the loop deletes each control key. */
  method StripControlKeys(q: Query) returns (r: Query)
    ensures r == WithoutControlKeys(q)
  {
    r := q;
    for i := 0 to |ControlKeys|
      invariant forall k :: k in r <==> k in q && k !in ControlKeys[..i]
      invariant forall k :: k in r ==> r[k] == q[k]
    {
      r := r - {ControlKeys[i]};
    }
    assert ControlKeys[..|ControlKeys|] == ControlKeys;
    assert r.Keys == WithoutControlKeys(q).Keys;
  }

  lemma RewriteInjectiveAll()
    ensures forall a, b :: OperatorRewrite.Rewrite(a) == OperatorRewrite.Rewrite(b) ==> a == b
  {
    forall a, b ensures OperatorRewrite.Rewrite(a) == OperatorRewrite.Rewrite(b) ==> a == b {
      OperatorRewrite.RewriteInjective(a, b);
    }
  }

  lemma RestoreRewriteAll()
    ensures forall s :: OperatorRewrite.Restore(OperatorRewrite.Rewrite(s)) == s
  {
    forall s ensures OperatorRewrite.Restore(OperatorRewrite.Rewrite(s)) == s {
      OperatorRewrite.RestoreRewrite(s);
    }
  }

  /** A bracketed group with its keys and values rewritten. */
  function RewriteEntries(m: map<string, string>): map<string, string> {
    RewriteInjectiveAll();
    map k | k in m :: OperatorRewrite.Rewrite(k) := OperatorRewrite.Rewrite(m[k])
  }

  function RewriteValue(v: QueryValue): QueryValue {
    match v
    case Plain(s) => Plain(OperatorRewrite.Rewrite(s))
    case Nested(m) => Nested(RewriteEntries(m))
  }

  /** The filter after `JSON.stringify`, the operator rewrite and
      `JSON.parse`: every key and every string value is rewritten. Since the
      rewrite is injective no two keys merge. */
  function RewriteQuery(q: Query): (r: Query)
    ensures forall k :: k in q ==>
              OperatorRewrite.Rewrite(k) in r && r[OperatorRewrite.Rewrite(k)] == RewriteValue(q[k])
    ensures forall k :: k in r ==>
              OperatorRewrite.Restore(k) in q && OperatorRewrite.Rewrite(OperatorRewrite.Restore(k)) == k
  {
    RewriteInjectiveAll();
    RestoreRewriteAll();
    map k | k in q :: OperatorRewrite.Rewrite(k) := RewriteValue(q[k])
  }

  /** The filter the listing hands to the database. */
  function Filter(q: Query): Query {
    RewriteQuery(WithoutControlKeys(q))
  }

  /** The control keys never reach the filter, every other key does,
      rewritten, with its rewritten value, and the filter has no other key. */
  lemma FilterKeys(q: Query)
    ensures forall c :: c in ControlKeys ==> c !in Filter(q)
    ensures forall k :: k in q && k !in ControlKeys ==>
              OperatorRewrite.Rewrite(k) in Filter(q) && Filter(q)[OperatorRewrite.Rewrite(k)] == RewriteValue(q[k])
    ensures forall k :: k in Filter(q) ==>
              var k0 := OperatorRewrite.Restore(k);
              k0 in q && k0 !in ControlKeys && OperatorRewrite.Rewrite(k0) == k
  {
    RewriteInjectiveAll();
    var r := WithoutControlKeys(q);
    forall c | c in ControlKeys
      ensures c !in Filter(q)
    {
      assert OperatorRewrite.IsWord(c) && !OperatorRewrite.IsOperator(c);
      OperatorRewrite.RewriteWord(c);
    }
  }

  /** A field name that is a single plain word reaches the filter unchanged,
      a bracketed operator such as `[gte]` becomes `$gte`, and the bound goes
      through the same rewrite as every other string of the query. */
  lemma FilterOfComparison(q: Query, field: string, op: string, bound: string)
    requires OperatorRewrite.IsWord(field) && !OperatorRewrite.IsOperator(field) && field !in ControlKeys
    requires OperatorRewrite.IsOperator(op)
    requires Lookup(q, field) == Some(Nested(map[op := bound]))
    ensures Lookup(Filter(q), field) == Some(Nested(map["$" + op := OperatorRewrite.Rewrite(bound)]))
  {
    FilterKeys(q);
    OperatorRewrite.RewriteWord(field);
    RewriteOneEntry(op, bound);
  }

  /** A one-operator group `{op: bound}` becomes `{$op: bound'}`, with
      `bound'` the rewritten bound. */
  lemma RewriteOneEntry(op: string, bound: string)
    requires OperatorRewrite.IsOperator(op)
    ensures RewriteEntries(map[op := bound]) == map["$" + op := OperatorRewrite.Rewrite(bound)]
  {
    assert OperatorRewrite.IsWord(op);
    OperatorRewrite.RewriteWord(op);
    assert RewriteEntries(map[op := bound]).Keys == {"$" + op};
  }

  /** `?price[gte]=5` filters on `price: {$gte: "5"}`: a numeral is a word
      but not an operator, so it passes the rewrite unchanged. */
  lemma PriceAtLeastFive(q: Query)
    requires Lookup(q, "price") == Some(Nested(map["gte" := "5"]))
    ensures Lookup(Filter(q), "price") == Some(Nested(map["$gte" := "5"]))
  {
    assert "$" + "gte" == "$gte";
    PlainWords();
    FilterOfComparison(q, "price", "gte", "5");
  }

  lemma PlainWords()
    ensures OperatorRewrite.IsWord("price") && !OperatorRewrite.IsOperator("price") && "price" !in ControlKeys
    ensures OperatorRewrite.Rewrite("price") == "price" && OperatorRewrite.Rewrite("5") == "5"
  {
    assert OperatorRewrite.IsWord("price") && !OperatorRewrite.IsOperator("price");
    OperatorRewrite.RewriteWord("price");
    assert OperatorRewrite.IsWord("5") && !OperatorRewrite.IsOperator("5");
    OperatorRewrite.RewriteWord("5");
  }

  // ---------------------------------------------------------------------------
  // select, sort, page and limit

  /** `s.split(",").join(" ")`. */
  function CommasToSpaces(s: string): (r: string)
    ensures |r| == |s|
    ensures forall i :: 0 <= i < |s| ==> r[i] == (if s[i] == ',' then ' ' else s[i])
  {
    if s == [] then [] else [if s[0] == ',' then ' ' else s[0]] + CommasToSpaces(s[1..])
  }

  /** A `select` or `sort` parameter: absent or empty (falsy), a field list,
      or a group, on which `split` is not a function and the handler throws. */
  datatype FieldSpec = NoSpec | Fields(list: string) | NotAString

  function FieldList(v: Option<QueryValue>): (r: FieldSpec)
    ensures r == NotAString <==> v.Some? && v.value.Nested?
    ensures r == NoSpec <==> v.None? || v.value == Plain([])
    ensures r.Fields? ==> v.Some? && v.value.Plain? && r.list == CommasToSpaces(v.value.s)
  {
    if v.None? then NoSpec
    else match v.value
      case Plain(s) => if s == [] then NoSpec else Fields(CommasToSpaces(s))
      case Nested(_) => NotAString
  }

  /** The sort order handed to the database: the requested one, else newest first. */
  function SortOrder(sort: FieldSpec): string {
    if sort.Fields? then sort.list else "-createdAt"
  }

  const DefaultPage: int := 1
  const DefaultLimit: int := 25

  /** `parseInt(v, 10) || default`: NaN and 0 fall back to the default. A
      group is converted to "[object Object]", which parses to NaN. */
  function IntParam(v: Option<QueryValue>, default: int): (n: int)
    requires default != 0
    ensures n != 0
    ensures v.None? || v.value.Nested? ==> n == default
    ensures n != default ==> v.Some? && v.value.Plain? && ParseInt(v.value.s) == Some(n)
  {
    var parsed := if v.Some? && v.value.Plain? then ParseInt(v.value.s) else None;
    if parsed.None? || parsed.value == 0 then default else parsed.value
  }

  /** A numeral is read back as its value, except 0, which gives the default. */
  lemma IntParamReadsNumeral(n: int, default: int)
    requires default != 0
    ensures IntParam(Some(Plain(ShowInt(n))), default) == if n == 0 then default else n
  {
    ParseIntShowInt(n, []);
    assert ShowInt(n) + [] == ShowInt(n);
  }

  /** A parameter that is not a number (`?page=abc`) gives the default. */
  lemma IntParamNotANumber(default: int)
    requires default != 0
    ensures IntParam(Some(Plain("abc")), default) == default
  {
    assert [] + [] + "abc" == "abc";
    ParseIntNaN([], [], "abc");
  }

  function Abs(n: int): nat {
    if n < 0 then -n else n
  }

  function Min(a: int, b: int): int {
    if a < b then a else b
  }

  /** `skip(from).limit(limit)` applied to the matching documents. A negative
      limit returns as many documents as a positive one (one batch). */
  function Window<T>(docs: seq<T>, from: nat, limit: int): (w: seq<T>)
    ensures |w| <= Abs(limit)
    ensures |w| == if from >= |docs| then 0 else Min(Abs(limit), |docs| - from)
    ensures forall i :: 0 <= i < |w| ==> w[i] == docs[from + i]
  {
    if from >= |docs| then [] else docs[from..from + Min(Abs(limit), |docs| - from)]
  }

  datatype PageLink = PageLink(page: int, limit: int)

  /** The `next` and `prev` links of the response. */
  datatype Pagination = Pagination(next: Option<PageLink>, prev: Option<PageLink>)

  /** `next` exactly when this page ends before `total`, `prev` exactly when
      it starts after the first document. */
  function Paginate(page: int, limit: int, total: int): (p: Pagination)
    ensures p.next.Some? <==> page * limit < total
    ensures p.next.Some? ==> p.next.value == PageLink(page + 1, limit)
    ensures p.prev.Some? <==> (page - 1) * limit > 0
    ensures p.prev.Some? ==> p.prev.value == PageLink(page - 1, limit)
  {
    var startIndex := (page - 1) * limit;
    var endIndex := page * limit;
    Pagination(if endIndex < total then Some(PageLink(page + 1, limit)) else None,
               if startIndex > 0 then Some(PageLink(page - 1, limit)) else None)
  }

  /** When the filter matches the whole collection, `next` is offered exactly
      when the next page has something on it, and `prev` exactly when this is
      not the first page. */
  lemma PaginationLinksUnfiltered<T>(docs: seq<T>, page: int, limit: int)
    requires page >= 1 && limit >= 1
    ensures Paginate(page, limit, |docs|).next.Some? <==> Window(docs, page * limit, limit) != []
    ensures Paginate(page, limit, |docs|).prev.Some? <==> page > 1
  {
    assert page * limit >= 0;
    if page > 1 {
      assert (page - 1) * limit >= limit;
    }
  }

  /** The total behind `next` is the whole collection's count, not the number
      of matches, so a filtered listing can offer a `next` page that is empty:
      with 30 spaces of which 5 match, page 1 offers page 2, which is empty. */
  lemma FilteredNextMayBeEmpty<T>(matches: seq<T>)
    requires |matches| == 5
    ensures Paginate(1, DefaultLimit, 30).next == Some(PageLink(2, DefaultLimit))
    ensures Window(matches, DefaultLimit, DefaultLimit) == []
  {
  }

  /** With 15 spaces, `page=2&limit=10` returns the last 5, with a `prev` link
      to page 1 and no `next` link. */
  lemma SecondPageOfFifteen<T>(docs: seq<T>)
    requires |docs| == 15
    ensures Window(docs, 10, 10) == docs[10..]
    ensures Paginate(2, 10, |docs|) == Pagination(None, Some(PageLink(1, 10)))
  {
  }

  // ---------------------------------------------------------------------------
  // Handlers

  /** A listed space with its `reservations` virtual populated. */
  datatype Listed = Listed(space: Coworking, reservations: map<Id, Reservation>)

  /** Each space with the reservations that point at it. */
  function Populate(spaces: seq<Coworking>, table: map<Id, Reservation>): (r: seq<Listed>)
    ensures |r| == |spaces|
    ensures forall i :: 0 <= i < |r| ==> r[i] == Listed(spaces[i], ReservationsOf(spaces[i].id, table))
  {
    seq(|spaces|, i requires 0 <= i < |spaces| => Listed(spaces[i], ReservationsOf(spaces[i].id, table)))
  }

  /** `getCoworkings`. `find` stands for the database: given the filter, the
      projection, the sort order and the collection, the matching documents
      in order, or `None` when the database refuses the query (a value that
      does not cast to the field's type, a projection that mixes inclusion
      and exclusion). Any error answers 400: a `select` or `sort` that is not
      a string, a negative skip, or a refused query. */
  method GetCoworkings(db: Store, query: Query, find: (Query, FieldSpec, string, map<Id, Coworking>) -> Option<seq<Coworking>>)
    returns (status: int, count: nat, pagination: Pagination, data: seq<Listed>)
    requires db.Valid()
    ensures var select, sort := FieldList(Lookup(query, "select")), FieldList(Lookup(query, "sort"));
            var page, limit := IntParam(Lookup(query, "page"), DefaultPage), IntParam(Lookup(query, "limit"), DefaultLimit);
            var startIndex := (page - 1) * limit;
            var found := find(Filter(query), select, SortOrder(sort), db.coworkings);
            && (status == OK <==> select != NotAString && sort != NotAString && startIndex >= 0 && found.Some?)
            && (status != OK ==> status == BAD_REQUEST && count == 0 && data == [])
            && (status == OK ==>
                  && count == |data| && count <= Abs(limit)
                  && count == (if startIndex >= |found.value| then 0 else Min(Abs(limit), |found.value| - startIndex))
                  && data == Populate(Window(found.value, startIndex, limit), db.reservations)
                  && (pagination.next.Some? <==> page * limit < |db.coworkings|)
                  && (pagination.next.Some? ==> pagination.next.value == PageLink(page + 1, limit))
                  && (pagination.prev.Some? <==> startIndex > 0)
                  && (pagination.prev.Some? ==> pagination.prev.value == PageLink(page - 1, limit)))
  {
    var reqQuery := StripControlKeys(query);
    var filter := RewriteQuery(reqQuery);
    var select := FieldList(Lookup(query, "select"));
    var sort := FieldList(Lookup(query, "sort"));
    if select == NotAString || sort == NotAString {
      return BAD_REQUEST, 0, Pagination(None, None), [];
    }
    var page := IntParam(Lookup(query, "page"), DefaultPage);
    var limit := IntParam(Lookup(query, "limit"), DefaultLimit);
    var startIndex := (page - 1) * limit;
    var total := |db.coworkings|;
    if startIndex < 0 {
      return BAD_REQUEST, 0, Pagination(None, None), [];
    }
    var found := find(filter, select, SortOrder(sort), db.coworkings);
    if found.None? {
      return BAD_REQUEST, 0, Pagination(None, None), [];
    }
    var spaces := Window(found.value, startIndex, limit);
    data := Populate(spaces, db.reservations);
    pagination := Paginate(page, limit, total);
    count := |data|;
    status := OK;
  }

  /** `getCoworking`: a missing space, or an id that does not cast, is 400. */
  method GetCoworking(db: Store, p: IdParam) returns (status: int, data: Option<Coworking>)
    requires db.Valid()
    ensures status == OK <==> p.Cast? && p.id in db.coworkings
    ensures status == OK ==> data == Some(db.coworkings[p.id])
    ensures status != OK ==> status == BAD_REQUEST && data.None?
  {
    if p.Uncastable? {
      return BAD_REQUEST, None;
    }
    data := db.FindCoworking(p.id);
    status := if data.Some? then OK else BAD_REQUEST;
  }

  /** The outcome of `createCoworking`, which has no error handling: a
      refused body leaves the request without a response, and the rejection
      it raises reaches the process-wide handler, which closes the server
      and exits. */
  datatype CreateReply = Replied(status: int, doc: Coworking) | NoReply(errors: set<SchemaError>)

  method CreateCoworking(db: Store, f: CoworkingFields) returns (reply: CreateReply)
    requires db.Valid()
    modifies db
    ensures db.Valid() && db.reservations == old(db.reservations)
    ensures reply.Replied? <==> CreateErrors(f) == {} && !NameTaken(old(db.coworkings), Trim(f.name.value), old(db.nextId))
    ensures reply.Replied? ==>
              reply.status == CREATED && reply.doc == Build(old(db.nextId), f) && WellFormed(reply.doc)
              && db.coworkings == old(db.coworkings)[reply.doc.id := reply.doc] && db.nextId == old(db.nextId) + 1
    ensures reply.NoReply? ==> db.coworkings == old(db.coworkings) && db.nextId == old(db.nextId)
  {
    var result := db.CreateCoworking(f);
    if result.Inserted? {
      reply := Replied(CREATED, result.doc);
    } else {
      reply := NoReply(result.errors);
    }
  }

  /** `updateCoworking`: a missing space, an id that does not cast and a
      body the validators or the unique index refuse all answer 400. */
  method UpdateCoworking(db: Store, p: IdParam, f: CoworkingFields) returns (status: int, data: Option<Coworking>)
    requires db.Valid()
    modifies db
    ensures db.Valid() && db.reservations == old(db.reservations) && db.nextId == old(db.nextId)
    ensures status == OK <==>
              p.Cast? && p.id in old(db.coworkings) && UpdateErrors(f) == {}
              && !NameTaken(old(db.coworkings), Apply(old(db.coworkings)[p.id], f).name, p.id)
    ensures status == OK ==>
              data == Some(Apply(old(db.coworkings)[p.id], f)) && db.coworkings == old(db.coworkings)[p.id := data.value]
    ensures status != OK ==> status == BAD_REQUEST && data.None? && db.coworkings == old(db.coworkings)
  {
    if p.Uncastable? {
      return BAD_REQUEST, None;
    }
    var result := db.UpdateCoworking(p.id, f);
    if result.Updated? {
      status, data := OK, Some(result.doc);
    } else {
      status, data := BAD_REQUEST, None;
    }
  }

  /** `deleteCoworking`: the space and, through the cascade hook, every
      reservation of it go; reservations of other spaces stay. */
  method DeleteCoworking(db: Store, p: IdParam) returns (status: int)
    requires db.Valid()
    modifies db
    ensures db.Valid() && db.nextId == old(db.nextId)
    ensures old(db.Ordered()) ==> db.Ordered()
    ensures status == OK <==> p.Cast? && p.id in old(db.coworkings)
    ensures status == OK ==>
              db.coworkings == old(db.coworkings) - {p.id}
              && db.reservations == WithoutSpace(p.id, old(db.reservations))
              && ReservationsOf(p.id, db.reservations) == map[]
    ensures status != OK ==>
              status == BAD_REQUEST && db.coworkings == old(db.coworkings) && db.reservations == old(db.reservations)
  {
    if p.Uncastable? || p.id !in db.coworkings {
      return BAD_REQUEST;
    }
    db.DeleteCoworking(p.id);
    CascadePartition(p.id, old(db.reservations));
    status := OK;
  }
}

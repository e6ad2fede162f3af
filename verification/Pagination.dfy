// Cursor pagination: one page, and what a caller sees who follows `next` to the end.

module Pagination {
  import opened Common
  import opened Queries
  import opened KeysetOrder
  import opened KeysetFilter

  // ---- Field selection -----------------------------------------------------------------

  datatype Token = Plus(field: string) | Minus(field: string)

  // A string or list of names, or a record of flags; NoSelect also stands for the empty string.
  datatype Select = NoSelect | Names(tokens: seq<Token>) | Flags(flags: map<string, bool>)

  predicate IsExclusion(s: Select) {
    match s
    case NoSelect => false
    case Names(tokens) => tokens != [] && forall i | 0 <= i < |tokens| :: tokens[i].Minus?
    case Flags(flags) => forall f | f in flags :: !flags[f]
  }

  // What a projection keeps of a document: an exclusion drops what it names, an inclusion
  // keeps what it names, and _id unless told otherwise.
  predicate Keeps(s: Select, f: string) {
    match s
    case NoSelect => true
    case Names(tokens) =>
      if IsExclusion(s) then Minus(f) !in tokens
      else Plus(f) in tokens || (f == "_id" && Minus("_id") !in tokens)
    case Flags(flags) =>
      if IsExclusion(s) then f !in flags
      else if f in flags then flags[f] else f == "_id"
  }

  function WithFields(tokens: seq<Token>, required: seq<string>): seq<Token>
    decreases |required|
  {
    if required == [] then tokens
    else WithFields(if Plus(required[0]) in tokens then tokens else tokens + [Plus(required[0])], required[1..])
  }

  // ensureKeysetSelectIncludesCursorFields: exclusions are returned as they are.
  function EnsureCursorFields(s: Select, sort: Sort): Select {
    match s
    case NoSelect => s
    case Names(tokens) => if IsExclusion(s) then s else Names(WithFields(tokens, AllFields(sort)))
    case Flags(flags) =>
      if IsExclusion(s) then s else Flags(flags + map f | f in AllFields(sort) :: true)
  }

  lemma {:induction false} WithFieldsMembers(tokens: seq<Token>, required: seq<string>)
    ensures forall t :: t in WithFields(tokens, required) <==> t in tokens || (t.Plus? && t.field in required)
    decreases |required|
  {
    if required != [] {
      WithFieldsMembers(if Plus(required[0]) in tokens then tokens else tokens + [Plus(required[0])], required[1..]);
    }
  }

  predicate CursorReadable(s: Select, sort: Sort) {
    forall f | f in AllFields(sort) :: Keeps(s, f)
  }

  // The cursor's fields survive the projection exactly when the caller's selection is not an
  // exclusion that names one of them; nothing the caller asked for is lost.
  lemma CursorFieldsSurvive(s: Select, sort: Sort)
    ensures CursorReadable(EnsureCursorFields(s, sort), sort)
      <==> !(IsExclusion(s) && exists f | f in AllFields(sort) :: !Keeps(s, f))
    ensures forall f | Keeps(s, f) :: Keeps(EnsureCursorFields(s, sort), f)
    ensures forall f | Keeps(EnsureCursorFields(s, sort), f) && !Keeps(s, f) :: f in AllFields(sort)
  {
    match s
    case NoSelect =>
    case Names(tokens) =>
      if !IsExclusion(s) {
        WithFieldsMembers(tokens, AllFields(sort));
        var t := EnsureCursorFields(s, sort).tokens;
        assert Plus("_id") in t by { assert "_id" in AllFields(sort); }
        assert !IsExclusion(Names(t)) by {
          var i :| 0 <= i < |t| && t[i] == Plus("_id");
        }
        assert forall f | f in AllFields(sort) :: Plus(f) in t;
      }
    case Flags(flags) =>
      if !IsExclusion(s) {
        var g := EnsureCursorFields(s, sort).flags;
        assert "_id" in AllFields(sort) && g["_id"];
        assert !IsExclusion(Flags(g));
      }
  }

  function Project(s: Select, d: Doc): Doc {
    map f | f in d && Keeps(s, f) :: d[f]
  }

  lemma CursorOfProjection(s: Select, sort: Sort, d: Doc)
    requires CursorReadable(s, sort)
    ensures EncodeCursor(Project(s, d), sort) == EncodeCursor(d, sort)
  {
    forall f | f in AllFields(sort) ensures Read(Project(s, d), f) == Read(d, f) {
    }
    assert PrimaryField(sort) in AllFields(sort) && "_id" in AllFields(sort);
    assert forall f | f in sort.fields :: f in AllFields(sort);
    if |sort.fields| > 1 {
      assert EncodeCursor(Project(s, d), sort).values.value == EncodeCursor(d, sort).values.value;
    }
  }

  // ---- One page ------------------------------------------------------------------------

  datatype Page = Page(data: seq<Doc>, hasMore: bool, next: Option<Cursor>)

  // The collection in the order of the sort, as the driver returns it.
  ghost predicate Listed(sort: Sort, docs: seq<Doc>) {
    forall i, j | 0 <= i < j < |docs| :: Before(sort, docs[i], docs[j])
  }

  function Find(e: Engine, docs: seq<Doc>, q: Query): seq<Doc> {
    if docs == [] then [] else (if Matches(e, q, docs[0]) then [docs[0]] else []) + Find(e, docs[1..], q)
  }

  function Take(docs: seq<Doc>, n: nat): seq<Doc> {
    if |docs| <= n then docs else docs[..n]
  }

  function ProjectAll(s: Select, docs: seq<Doc>): (r: seq<Doc>)
    ensures |r| == |docs|
  {
    seq(|docs|, i requires 0 <= i < |docs| => Project(s, docs[i]))
  }

  function PageOf(sort: Sort, select: Select, limit: nat, matching: seq<Doc>): Page
    requires limit >= 1
  {
    var data := ProjectAll(EnsureCursorFields(select, sort), Take(matching, limit));
    var hasMore := |matching| > limit;
    Page(data, hasMore, if hasMore then Some(EncodeCursor(data[limit - 1], sort)) else None)
  }

  // A page read as one row more than the limit, the extra row dropped.
  lemma ReadOneMore(sort: Sort, select: Select, n: nat, found: seq<Doc>, fetched: seq<Doc>, data: seq<Doc>)
    requires n >= 1
    requires fetched == ProjectAll(EnsureCursorFields(select, sort), Take(found, n + 1))
    requires data == if |fetched| > n then fetched[..|fetched| - 1] else fetched
    ensures |fetched| > n ==> data != []
    ensures PageOf(sort, select, n, found) ==
      Page(data, |fetched| > n, if |fetched| > n then Some(EncodeCursor(data[|data| - 1], sort)) else None)
  {
    assert data == ProjectAll(EnsureCursorFields(select, sort), Take(found, n));
  }

  datatype Config = Config(defaultLimit: nat, maxLimit: nat)

  function ValidateLimit(limit: int, cfg: Config): int {
    if limit < 1 then cfg.defaultLimit
    else if cfg.maxLimit == 0 || limit <= cfg.maxLimit then limit
    else cfg.maxLimit
  }

  class PaginationEngine {
    const config: Config
    const engine: Engine

    constructor (config: Config, engine: Engine)
      ensures this.config == config && this.engine == engine
    {
      this.config, this.engine := config, engine;
    }

    // stream(): one row more than the page is fetched to learn whether there is a next one.
    method Stream(docs: seq<Doc>, filters: Query, sort: Sort, limit: int, select: Select, after: Option<Cursor>)
      returns (page: Page)
      requires config.defaultLimit >= 1
      ensures ValidateLimit(limit, config) >= 1
      ensures page
        == PageOf(sort, select, ValidateLimit(limit, config), Find(engine, docs, QueryFor(filters, sort, after)))
    {
      var sanitizedLimit := ValidateLimit(limit, config);
      var query := filters;
      if after.Some? {
        query := BuildKeysetFilter(query, sort, after.value);
      }
      var effectiveSelect := EnsureCursorFields(select, sort);
      var found := Find(engine, docs, query);
      var fetched := ProjectAll(effectiveSelect, Take(found, sanitizedLimit + 1));
      var data := fetched;
      var hasMore := |data| > sanitizedLimit;
      if hasMore {
        data := data[..|data| - 1];
      }
      ReadOneMore(sort, select, sanitizedLimit, found, fetched, data);
      var next := None;
      if hasMore && |data| > 0 {
        next := Some(EncodeCursor(data[|data| - 1], sort));
      }
      page := Page(data, hasMore, next);
    }
  }

  // ---- Following `next` ----------------------------------------------------------------

  datatype Request = Request(engine: Engine, docs: seq<Doc>, filters: Query, sort: Sort, limit: nat, select: Select)

  function PageAfter(r: Request, after: Option<Cursor>): Page
    requires r.limit >= 1
  {
    PageOf(r.sort, r.select, r.limit, Find(r.engine, r.docs, QueryFor(r.filters, r.sort, after)))
  }

  // The pages of a caller who follows `next` until there is none.
  ghost predicate Traversal(r: Request, after: Option<Cursor>, pages: seq<Page>)
    requires r.limit >= 1
    decreases |pages|
  {
    && pages != [] && pages[0] == PageAfter(r, after)
    && (if pages[0].next.None? then |pages| == 1 else Traversal(r, pages[0].next, pages[1..]))
  }

  // The documents are distinct and listed in the order of the sort, have ids, and their
  // cursors survive the projection.
  ghost predicate Sound(r: Request) {
    && r.limit >= 1
    && ValidSort(r.sort)
    && Listed(r.sort, r.docs)
    && (forall d | d in r.docs :: Read(d, "_id") != Null)
    && CursorReadable(EnsureCursorFields(r.select, r.sort), r.sort)
  }

  function Found(r: Request): seq<Doc> {
    Find(r.engine, r.docs, r.filters)
  }

  // What the request behind this document finds.
  function Behind(r: Request, b: Doc): seq<Doc> {
    Find(r.engine, r.docs, QueryFor(r.filters, r.sort, Some(EncodeCursor(b, r.sort))))
  }

  function DataOf(pages: seq<Page>): seq<Doc> {
    if pages == [] then [] else pages[0].data + DataOf(pages[1..])
  }

  function PageCount(n: nat, limit: nat): nat
    requires limit >= 1
  {
    if n <= limit then 1 else 1 + PageCount(n - limit, limit)
  }

  lemma {:induction false} FindConcat(e: Engine, a: seq<Doc>, b: seq<Doc>, q: Query)
    ensures Find(e, a + b, q) == Find(e, a, q) + Find(e, b, q)
    decreases |a|
  {
    if a == [] {
      assert a + b == b;
    } else {
      assert (a + b)[1..] == a[1..] + b;
      FindConcat(e, a[1..], b, q);
    }
  }

  lemma {:induction false} FindSame(e: Engine, docs: seq<Doc>, p: Query, q: Query)
    requires forall d | d in docs :: Matches(e, p, d) <==> Matches(e, q, d)
    ensures Find(e, docs, p) == Find(e, docs, q)
    decreases |docs|
  {
    if docs != [] {
      assert docs[0] in docs;
      FindSame(e, docs[1..], p, q);
    }
  }

  lemma {:induction false} FindNone(e: Engine, docs: seq<Doc>, q: Query)
    requires forall d | d in docs :: !Matches(e, q, d)
    ensures Find(e, docs, q) == []
    decreases |docs|
  {
    if docs != [] {
      assert docs[0] in docs;
      FindNone(e, docs[1..], q);
    }
  }

  lemma {:induction false} FindMembers(e: Engine, docs: seq<Doc>, q: Query)
    ensures forall d :: d in Find(e, docs, q) <==> d in docs && Matches(e, q, d)
    decreases |docs|
  {
    if docs != [] {
      FindMembers(e, docs[1..], q);
      assert docs == [docs[0]] + docs[1..];
    }
  }

  lemma {:induction false} FindIsListed(e: Engine, sort: Sort, docs: seq<Doc>, q: Query)
    requires Listed(sort, docs)
    ensures Listed(sort, Find(e, docs, q))
    decreases |docs|
  {
    if docs != [] {
      var rest := Find(e, docs[1..], q);
      FindIsListed(e, sort, docs[1..], q);
      FindMembers(e, docs[1..], q);
      forall i | 0 <= i < |rest| ensures Before(sort, docs[0], rest[i]) {
        assert rest[i] in rest;
      }
    }
  }

  // The position just behind the n-th matching document.
  lemma {:induction false} PositionAfter(e: Engine, docs: seq<Doc>, q: Query, n: nat) returns (p: nat)
    requires 1 <= n <= |Find(e, docs, q)|
    ensures 1 <= p <= |docs|
    ensures docs[p - 1] == Find(e, docs, q)[n - 1]
    ensures Find(e, docs[p..], q) == Find(e, docs, q)[n..]
    decreases |docs|
  {
    var first := FindCons(e, docs, q);
    if n == |first| {
      p := 1;
    } else {
      var k := PositionAfter(e, docs[1..], q, n - |first|);
      p := k + 1;
      assert docs[p..] == docs[1..][k..];
      DropsPast(first, Find(e, docs[1..], q), n);
    }
  }

  lemma FindCons(e: Engine, docs: seq<Doc>, q: Query) returns (first: seq<Doc>)
    requires docs != []
    ensures Find(e, docs, q) == first + Find(e, docs[1..], q)
    ensures first == [] || first == [docs[0]]
  {
    first := if Matches(e, q, docs[0]) then [docs[0]] else [];
  }

  lemma DropsPast(a: seq<Doc>, b: seq<Doc>, n: nat)
    requires |a| < n <= |a + b|
    ensures (a + b)[n..] == b[n - |a|..] && (a + b)[n - 1] == b[n - 1 - |a|]
  {
  }

  lemma ListedPast(sort: Sort, docs: seq<Doc>, p: nat)
    requires Listed(sort, docs) && 1 <= p <= |docs|
    ensures forall d | d in docs :: d in docs[p..] <==> Before(sort, docs[p - 1], d)
  {
    forall d | d in docs ensures d in docs[p..] <==> Before(sort, docs[p - 1], d) {
      var j :| 0 <= j < |docs| && docs[j] == d;
      LexIsStrict(AllFields(sort), sort.ascending, docs[p - 1], d, docs[p - 1]);
      if j >= p {
        assert docs[p..][j - p] == d;
      }
      if d in docs[p..] {
        var i :| 0 <= i < |docs| - p && docs[p..][i] == d;
        assert Before(sort, docs[p - 1], docs[p + i]);
      }
    }
  }

  // ---- The request behind a document ---------------------------------------------------

  predicate IsOff(r: Request, b: Doc, d: Doc) {
    Off(r.engine, r.filters, r.sort, b, d)
  }

  // The keyset filter asks for nothing up to its document.
  lemma BehindIsPast(r: Request, p: nat)
    requires Sound(r) && 1 <= p <= |r.docs|
    ensures Behind(r, r.docs[p - 1])
      == Find(r.engine, r.docs[p..], QueryFor(r.filters, r.sort, Some(EncodeCursor(r.docs[p - 1], r.sort))))
  {
    var b := r.docs[p - 1];
    var q := QueryFor(r.filters, r.sort, Some(EncodeCursor(b, r.sort)));
    assert b in r.docs;
    forall d | d in r.docs[..p] ensures !Matches(r.engine, q, d) {
      KeysetFilterMeaning(r.engine, r.filters, r.sort, b, d);
      var j :| 0 <= j < p && r.docs[j] == d;
      LexIsStrict(AllFields(r.sort), r.sort.ascending, b, d, b);
    }
    assert r.docs == r.docs[..p] + r.docs[p..];
    FindConcat(r.engine, r.docs[..p], r.docs[p..], q);
    FindNone(r.engine, r.docs[..p], q);
  }

  // Main result: the request behind a listed document finds exactly the rest of the matches
  // if and only if no document of the rest is off.
  lemma FindPast(r: Request, p: nat)
    requires Sound(r) && 1 <= p <= |r.docs|
    ensures Behind(r, r.docs[p - 1]) == Find(r.engine, r.docs[p..], r.filters)
      <==> forall d | d in r.docs[p..] :: !IsOff(r, r.docs[p - 1], d)
  {
    var b := r.docs[p - 1];
    var q := QueryFor(r.filters, r.sort, Some(EncodeCursor(b, r.sort)));
    assert b in r.docs;
    BehindIsPast(r, p);
    forall d | d in r.docs[p..]
      ensures (Matches(r.engine, q, d) <==> Matches(r.engine, r.filters, d)) <==> !IsOff(r, b, d)
    {
      OffExactly(r.engine, r.filters, r.sort, b, d);
      ListedPast(r.sort, r.docs, p);
    }
    if forall d | d in r.docs[p..] :: !IsOff(r, b, d) {
      FindSame(r.engine, r.docs[p..], q, r.filters);
    } else {
      FindMembers(r.engine, r.docs[p..], q);
      FindMembers(r.engine, r.docs[p..], r.filters);
    }
  }

  function Shown(r: Request, docs: seq<Doc>): (data: seq<Doc>)
    ensures |data| == |docs|
  {
    ProjectAll(EnsureCursorFields(r.select, r.sort), docs)
  }

  lemma ShownSplits(r: Request, docs: seq<Doc>, n: nat)
    requires n <= |docs|
    ensures Shown(r, docs) == Shown(r, docs[..n]) + Shown(r, docs[n..])
  {
  }

  lemma {:induction false} LexOfProjection(s: Select, fields: seq<string>, ascending: bool, a: Doc, b: Doc)
    requires forall f | f in fields :: Keeps(s, f)
    ensures LexBefore(fields, ascending, Project(s, a), Project(s, b)) <==> LexBefore(fields, ascending, a, b)
    decreases |fields|
  {
    if fields != [] {
      assert Keeps(s, fields[0]);
      LexOfProjection(s, fields[1..], ascending, a, b);
    }
  }

  // The projection keeps what tells two documents apart.
  lemma ShownTells(r: Request, a: seq<Doc>, b: seq<Doc>)
    requires Sound(r) && (forall d | d in a :: d in r.docs) && (forall d | d in b :: d in r.docs)
    requires Shown(r, a) == Shown(r, b)
    ensures a == b
  {
    var s := EnsureCursorFields(r.select, r.sort);
    assert |a| == |Shown(r, a)| == |b|;
    forall i | 0 <= i < |a| ensures a[i] == b[i] {
      assert Project(s, a[i]) == Shown(r, a)[i] == Project(s, b[i]);
      assert a[i] in a && b[i] in b;
      var j :| 0 <= j < |r.docs| && r.docs[j] == a[i];
      var k :| 0 <= k < |r.docs| && r.docs[k] == b[i];
      LexOfProjection(s, AllFields(r.sort), r.sort.ascending, a[i], b[i]);
      LexOfProjection(s, AllFields(r.sort), r.sort.ascending, b[i], a[i]);
      LexIsStrict(AllFields(r.sort), r.sort.ascending, Project(s, a[i]), a[i], a[i]);
    }
  }

  // ---- Exactly when following `next` shows the matches ---------------------------------

  // A fetch shows the rows it should, and says that there is more when there is. It may say
  // so wrongly if nothing is found behind it.
  ghost predicate FetchesRight(r: Request, fetched: seq<Doc>, left: seq<Doc>)
    requires r.limit >= 1
  {
    && Take(fetched, r.limit) == Take(left, r.limit)
    && (|left| > r.limit ==> |fetched| > r.limit)
    && (|fetched| > r.limit && |left| <= r.limit ==> Behind(r, fetched[r.limit - 1]) == [])
  }

  // Every fetch behind a full page of what is left does.
  ghost predicate AllRight(r: Request, left: seq<Doc>)
    requires r.limit >= 1
    decreases |left|
  {
    |left| > r.limit ==>
      && FetchesRight(r, Behind(r, left[r.limit - 1]), left[r.limit..])
      && AllRight(r, left[r.limit..])
  }

  ghost predicate RightFrom(r: Request, fetched: seq<Doc>, left: seq<Doc>)
    requires r.limit >= 1
  {
    FetchesRight(r, fetched, left) && AllRight(r, left)
  }

  function FoundAfter(r: Request, after: Option<Cursor>): seq<Doc> {
    Find(r.engine, r.docs, QueryFor(r.filters, r.sort, after))
  }

  lemma PageShows(r: Request, after: Option<Cursor>, fetched: seq<Doc>)
    requires Sound(r) && fetched == FoundAfter(r, after)
    ensures
      var page := PageAfter(r, after);
      && page.data == Shown(r, Take(fetched, r.limit))
      && page.next == if |fetched| > r.limit then Some(EncodeCursor(fetched[r.limit - 1], r.sort)) else None
  {
    if |fetched| > r.limit {
      CursorOfProjection(EnsureCursorFields(r.select, r.sort), r.sort, fetched[r.limit - 1]);
    }
  }

  lemma FirstOfTraversal(r: Request, after: Option<Cursor>, pages: seq<Page>)
    requires Sound(r) && Traversal(r, after, pages)
    ensures
      var fetched := FoundAfter(r, after);
      if |fetched| <= r.limit then DataOf(pages) == Shown(r, fetched)
      else
        && DataOf(pages) == Shown(r, fetched[..r.limit]) + DataOf(pages[1..])
        && Traversal(r, Some(EncodeCursor(fetched[r.limit - 1], r.sort)), pages[1..])
  {
    PageShows(r, after, FoundAfter(r, after));
    if pages[0].next.None? {
      assert pages[1..] == [] && DataOf(pages) == pages[0].data + [];
    }
  }

  // Main result, for every filter and sort: the pages show exactly what is left if and only
  // if the fetch does and every fetch behind a full page of what is left does.
  lemma {:induction false} PagesShow(r: Request, after: Option<Cursor>, left: seq<Doc>, pages: seq<Page>)
    requires Sound(r) && Traversal(r, after, pages) && forall d | d in left :: d in r.docs
    ensures DataOf(pages) == Shown(r, left) <==> RightFrom(r, FoundAfter(r, after), left)
    decreases |pages|
  {
    var fetched, next, rest := FirstFetch(r, after, pages);
    if SamePage(r, fetched, left) {
      PagesShow(r, next, left[r.limit..], rest);
    }
    OneFetch(r, fetched, left, FoundAfter(r, next), DataOf(rest));
  }

  // More was fetched than a page, and the page is that of what is left.
  predicate SamePage(r: Request, fetched: seq<Doc>, left: seq<Doc>) {
    |fetched| > r.limit && |left| >= r.limit && left[..r.limit] == fetched[..r.limit]
  }

  lemma OneFetch(r: Request, fetched: seq<Doc>, left: seq<Doc>, behind: seq<Doc>, rest: seq<Doc>)
    requires Sound(r) && (forall d | d in fetched :: d in r.docs) && (forall d | d in left :: d in r.docs)
    requires |fetched| > r.limit ==> behind == Behind(r, fetched[r.limit - 1])
    requires SamePage(r, fetched, left) ==>
      (rest == Shown(r, left[r.limit..]) <==> RightFrom(r, behind, left[r.limit..]))
    ensures Fetched(r, fetched, rest) == Shown(r, left) <==> RightFrom(r, fetched, left)
  {
    if |fetched| <= r.limit {
      LastPageTells(r, fetched, left);
    } else if SamePage(r, fetched, left) {
      RestTells(r, fetched, left, behind, rest);
    } else {
      FirstPageTells(r, fetched, left, rest);
    }
  }

  function Fetched(r: Request, fetched: seq<Doc>, rest: seq<Doc>): seq<Doc> {
    if |fetched| <= r.limit then Shown(r, fetched) else Shown(r, fetched[..r.limit]) + rest
  }

  lemma FirstFetch(r: Request, after: Option<Cursor>, pages: seq<Page>)
    returns (fetched: seq<Doc>, next: Option<Cursor>, rest: seq<Page>)
    requires Sound(r) && Traversal(r, after, pages)
    ensures fetched == FoundAfter(r, after) && forall d | d in fetched :: d in r.docs
    ensures DataOf(pages) == Fetched(r, fetched, DataOf(rest))
    ensures |fetched| > r.limit ==>
      && |rest| < |pages|
      && Traversal(r, next, rest) && FoundAfter(r, next) == Behind(r, fetched[r.limit - 1])
  {
    fetched, next, rest := FoundAfter(r, after), pages[0].next, pages[1..];
    FindMembers(r.engine, r.docs, QueryFor(r.filters, r.sort, after));
    PageShows(r, after, fetched);
    FirstOfTraversal(r, after, pages);
  }

  lemma RestTells(r: Request, fetched: seq<Doc>, left: seq<Doc>, behind: seq<Doc>, rest: seq<Doc>)
    requires r.limit >= 1 && |fetched| > r.limit && |left| >= r.limit && left[..r.limit] == fetched[..r.limit]
    requires behind == Behind(r, fetched[r.limit - 1])
    requires rest == Shown(r, left[r.limit..]) <==> RightFrom(r, behind, left[r.limit..])
    ensures Shown(r, fetched[..r.limit]) + rest == Shown(r, left) <==> RightFrom(r, fetched, left)
  {
    ShownSplits(r, left, r.limit);
    SameTail(Shown(r, left[..r.limit]), rest, Shown(r, left[r.limit..]));
    if |left| == r.limit {
      RightAtTheEnd(r, fetched, left, behind);
      NothingLeft(r, behind);
    } else {
      RightBefore(r, fetched, left, behind);
    }
  }

  lemma SameTail(first: seq<Doc>, a: seq<Doc>, b: seq<Doc>)
    ensures first + a == first + b <==> a == b
  {
    assert (first + a)[|first|..] == a && (first + b)[|first|..] == b;
  }

  lemma RightAtTheEnd(r: Request, fetched: seq<Doc>, left: seq<Doc>, behind: seq<Doc>)
    requires r.limit >= 1 && |fetched| > r.limit && |left| == r.limit && left == fetched[..r.limit]
    requires behind == Behind(r, fetched[r.limit - 1])
    ensures RightFrom(r, fetched, left) <==> behind == []
  {
  }

  lemma NothingLeft(r: Request, fetched: seq<Doc>)
    requires r.limit >= 1
    ensures RightFrom(r, fetched, []) <==> fetched == []
  {
  }

  lemma RightBefore(r: Request, fetched: seq<Doc>, left: seq<Doc>, behind: seq<Doc>)
    requires r.limit >= 1 && |fetched| > r.limit && |left| > r.limit && left[..r.limit] == fetched[..r.limit]
    requires behind == Behind(r, fetched[r.limit - 1])
    ensures RightFrom(r, fetched, left) <==> RightFrom(r, behind, left[r.limit..])
  {
    assert left[r.limit - 1] == left[..r.limit][r.limit - 1] == fetched[r.limit - 1];
  }

  lemma LastPageTells(r: Request, fetched: seq<Doc>, left: seq<Doc>)
    requires Sound(r) && |fetched| <= r.limit
    requires (forall d | d in fetched :: d in r.docs) && (forall d | d in left :: d in r.docs)
    ensures Shown(r, fetched) == Shown(r, left) <==> RightFrom(r, fetched, left)
  {
    if Shown(r, fetched) == Shown(r, left) {
      ShownTells(r, fetched, left);
    }
  }

  lemma FirstPageTells(r: Request, fetched: seq<Doc>, left: seq<Doc>, rest: seq<Doc>)
    requires Sound(r) && |fetched| > r.limit
    requires (forall d | d in fetched :: d in r.docs) && (forall d | d in left :: d in r.docs)
    requires |left| < r.limit || left[..r.limit] != fetched[..r.limit]
    ensures Shown(r, fetched[..r.limit]) + rest != Shown(r, left)
  {
    if Shown(r, fetched[..r.limit]) + rest == Shown(r, left) {
      ShownSplits(r, left, r.limit);
      assert Shown(r, left)[..r.limit] == Shown(r, fetched[..r.limit]);
      ShownTells(r, fetched[..r.limit], left[..r.limit]);
    }
  }

  // ---- Without rows that are off -------------------------------------------------------

  // The last document of each full page that has more behind it.
  function PageEnds(left: seq<Doc>, limit: nat): seq<Doc>
    requires limit >= 1
    decreases |left|
  {
    if |left| <= limit then [] else [left[limit - 1]] + PageEnds(left[limit..], limit)
  }

  ghost predicate NothingOff(r: Request, left: seq<Doc>)
    requires r.limit >= 1
  {
    forall b, d | b in PageEnds(left, r.limit) && d in r.docs :: !IsOff(r, b, d)
  }

  function Remaining(r: Request, p: nat): seq<Doc>
    requires p <= |r.docs|
  {
    Find(r.engine, r.docs[p..], r.filters)
  }

  // A full page ends at the document its cursor is made from.
  lemma BehindPage(r: Request, p: nat) returns (q: nat)
    requires r.limit >= 1 && p <= |r.docs| && |Remaining(r, p)| > r.limit
    ensures p < q <= |r.docs|
    ensures r.docs[q - 1] == Remaining(r, p)[r.limit - 1]
    ensures Remaining(r, q) == Remaining(r, p)[r.limit..]
  {
    var k := PositionAfter(r.engine, r.docs[p..], r.filters, r.limit);
    q := p + k;
    assert r.docs[p..][k..] == r.docs[q..];
  }

  lemma NothingOffBehind(r: Request, p: nat) returns (q: nat)
    requires Sound(r) && p <= |r.docs| && |Remaining(r, p)| > r.limit
    requires NothingOff(r, Remaining(r, p))
    ensures p < q <= |r.docs| && Remaining(r, q) == Remaining(r, p)[r.limit..]
    ensures Behind(r, Remaining(r, p)[r.limit - 1]) == Remaining(r, q)
    ensures NothingOff(r, Remaining(r, q))
  {
    q := BehindPage(r, p);
    var left := Remaining(r, p);
    assert PageEnds(left, r.limit) == [left[r.limit - 1]] + PageEnds(left[r.limit..], r.limit);
    FindPast(r, q);
  }

  ghost predicate Covers(r: Request, left: seq<Doc>, pages: seq<Page>)
    requires r.limit >= 1
  {
    && DataOf(pages) == Shown(r, left)
    && |pages| == PageCount(|left|, r.limit)
    && OnlyLastIsLast(pages)
  }

  lemma {:induction false} TraversalFrom(r: Request, after: Option<Cursor>, p: nat, pages: seq<Page>)
    requires Sound(r) && p <= |r.docs| && FoundAfter(r, after) == Remaining(r, p)
    requires Traversal(r, after, pages) && NothingOff(r, Remaining(r, p))
    ensures Covers(r, Remaining(r, p), pages)
    decreases |pages|
  {
    FirstOfTraversal(r, after, pages);
    if |Remaining(r, p)| > r.limit {
      var q := NothingOffBehind(r, p);
      TraversalFrom(r, Some(EncodeCursor(Remaining(r, p)[r.limit - 1], r.sort)), q, pages[1..]);
      ConsCovers(r, Remaining(r, p), pages);
    }
  }

  lemma ConsCovers(r: Request, left: seq<Doc>, pages: seq<Page>)
    requires r.limit >= 1 && |left| > r.limit && pages != [] && pages[0].hasMore
    requires DataOf(pages) == Shown(r, left[..r.limit]) + DataOf(pages[1..])
    requires Covers(r, left[r.limit..], pages[1..])
    ensures Covers(r, left, pages)
  {
    ShownSplits(r, left, r.limit);
    assert pages[1..] != [];
    assert forall i | 0 < i < |pages| :: pages[i] == pages[1..][i - 1];
  }

  predicate OnlyLastIsLast(pages: seq<Page>) {
    forall i | 0 <= i < |pages| :: pages[i].hasMore <==> i < |pages| - 1
  }

  // Main result: if no document is off behind a full page, following `next` visits every
  // matching document exactly once, in sort order, in ceil(n / limit) pages, and only the last
  // page says there is no more.
  lemma PagesCoverTheMatches(r: Request, pages: seq<Page>)
    requires Sound(r) && Traversal(r, None, pages) && NothingOff(r, Found(r))
    ensures DataOf(pages) == Shown(r, Found(r))
    ensures |pages| == PageCount(|Found(r)|, r.limit)
    ensures OnlyLastIsLast(pages)
  {
    assert r.docs[0..] == r.docs;
    TraversalFrom(r, None, 0, pages);
  }

  // ---- With rows that are off ----------------------------------------------------------

  ghost predicate NoNulls(r: Request) {
    forall f, d | f in AllFields(r.sort) && d in r.docs :: Read(d, f) != Null
  }

  // Not all three at once: several sort fields, nulls in them, and a top-level `$or`.
  ghost predicate Unmixed(r: Request) {
    |r.sort.fields| <= 1 || r.filters.ors == [] || NoNulls(r)
  }

  predicate IsAsked(r: Request, b: Doc, d: Doc) {
    Matches(r.engine, Kept(r.filters, r.sort, b), d) && Before(r.sort, b, d) && !Lost(r.sort, b, d)
  }

  // A document found that should not be is found again from every later one that is found.
  lemma StrayStays(r: Request, a: Doc, b: Doc, d: Doc)
    requires Sound(r) && Unmixed(r) && a in r.docs && b in r.docs && d in r.docs
    requires Before(r.sort, a, b) && Before(r.sort, b, d)
    requires IsAsked(r, a, d) && !Matches(r.engine, r.filters, d)
    ensures IsAsked(r, b, d)
  {
    assert r.filters.ors == [] ==> r.filters.(ors := []) == r.filters;
    if |r.sort.fields| <= 1 {
      BySingleField(r.sort, a, b);
      BySingleField(r.sort, b, d);
      BySingleField(r.sort, a, d);
    } else if r.filters.ors != [] {
      NoNullNoStep(AllFields(r.sort), b, d);
    }
  }

  lemma OffStays(r: Request, a: Doc, b: Doc, d: Doc)
    requires Sound(r) && Unmixed(r) && a in r.docs && b in r.docs && d in r.docs
    requires IsAsked(r, a, b) && Before(r.sort, b, d) && IsOff(r, a, d)
    ensures IsOff(r, b, d)
  {
    if Lost(r.sort, a, d) {
      NullStepStays(AllFields(r.sort), r.sort.ascending, a, b, d);
    } else {
      StrayStays(r, a, b, d);
    }
  }

  lemma AskedIsFound(r: Request, b: Doc)
    requires Sound(r) && b in r.docs
    ensures forall d :: d in Behind(r, b) <==> d in r.docs && IsAsked(r, b, d)
    ensures Listed(r.sort, Behind(r, b))
  {
    var q := QueryFor(r.filters, r.sort, Some(EncodeCursor(b, r.sort)));
    FindMembers(r.engine, r.docs, q);
    FindIsListed(r.engine, r.sort, r.docs, q);
    forall d ensures d in Behind(r, b) <==> d in r.docs && IsAsked(r, b, d) {
      KeysetFilterMeaning(r.engine, r.filters, r.sort, b, d);
    }
  }

  lemma OffIsMisfetched(r: Request, p: nat, d: Doc)
    requires Sound(r) && 1 <= p <= |r.docs| && d in r.docs && IsOff(r, r.docs[p - 1], d)
    ensures d in Behind(r, r.docs[p - 1]) <==> d !in Remaining(r, p)
  {
    var b := r.docs[p - 1];
    assert b in r.docs;
    AskedIsFound(r, b);
    FindMembers(r.engine, r.docs[p..], r.filters);
    ListedPast(r.sort, r.docs, p);
    KeptIsWeaker(r.engine, r.filters, r.sort, b, d);
  }

  // Two lists that agree on a page agree on everything up to its end.
  lemma SamePageSameRows(sort: Sort, a: seq<Doc>, b: seq<Doc>, n: nat, d: Doc)
    requires Listed(sort, a) && Listed(sort, b)
    requires 1 <= n <= |a| && n <= |b| && a[..n] == b[..n] && !Before(sort, a[n - 1], d)
    ensures d in a <==> d in b
  {
    assert a[n - 1] == a[..n][n - 1] == b[n - 1];
    InPage(sort, a, n, d);
    InPage(sort, b, n, d);
  }

  lemma InPage(sort: Sort, a: seq<Doc>, n: nat, d: Doc)
    requires Listed(sort, a) && 1 <= n <= |a| && !Before(sort, a[n - 1], d)
    ensures d in a <==> d in a[..n]
  {
    if d in a {
      var i :| 0 <= i < |a| && a[i] == d;
      assert i < n;
      assert a[..n][i] == d;
    }
  }

  // A page that ends what is left, followed by an empty one, hides nothing that is off.
  lemma EmptyPageTells(r: Request, p: nat)
    requires Sound(r) && Unmixed(r) && 1 <= p <= |r.docs|
    requires |Remaining(r, p)| <= r.limit && FetchesRight(r, Behind(r, r.docs[p - 1]), Remaining(r, p))
    ensures Behind(r, r.docs[p - 1]) == Remaining(r, p)
  {
    var a, b, left := r.docs[p - 1], Behind(r, r.docs[p - 1]), Remaining(r, p);
    assert a in r.docs;
    AskedIsFound(r, a);
    if |b| > r.limit {
      var last, x := b[r.limit - 1], b[r.limit];
      assert last in b && x in b && Before(r.sort, last, x);
      assert left == b[..r.limit];
      assert x !in left by {
        if i :| 0 <= i < r.limit && b[..r.limit][i] == x {
          assert Before(r.sort, b[i], b[r.limit]);
          LexIsStrict(AllFields(r.sort), r.sort.ascending, x, x, x);
        }
      }
      FindMembers(r.engine, r.docs[p..], r.filters);
      ListedPast(r.sort, r.docs, p);
      StrayStays(r, a, last, x);
      AskedIsFound(r, last);
      assert false;
    }
  }

  lemma {:induction false} OffShows(r: Request, p: nat, d: Doc)
    requires Sound(r) && Unmixed(r) && 1 <= p <= |r.docs|
    requires FetchesRight(r, Behind(r, r.docs[p - 1]), Remaining(r, p)) && AllRight(r, Remaining(r, p))
    requires d in r.docs
    ensures !IsOff(r, r.docs[p - 1], d)
    decreases |r.docs| - p
  {
    var b, n, left := r.docs[p - 1], r.limit, Remaining(r, p);
    if IsOff(r, b, d) {
      assert b in r.docs;
      AskedIsFound(r, b);
      OffIsMisfetched(r, p, d);
      if |left| <= n {
        EmptyPageTells(r, p);
      } else {
        var fetched := Behind(r, b);
        assert left[..n] == fetched[..n];
        assert left[n - 1] == left[..n][n - 1] == fetched[n - 1];
        assert fetched[n - 1] in fetched;
        RemainingIsListed(r, p);
        if Before(r.sort, left[n - 1], d) {
          var q := BehindPage(r, p);
          OffStays(r, b, left[n - 1], d);
          OffShows(r, q, d);
        } else {
          SamePageSameRows(r.sort, fetched, left, n, d);
        }
      }
    }
  }

  lemma RemainingIsListed(r: Request, p: nat)
    requires Sound(r) && p <= |r.docs|
    ensures Listed(r.sort, Remaining(r, p))
  {
    FindIsListed(r.engine, r.sort, r.docs[p..], r.filters);
  }

  lemma {:induction false} RightMeansNothingOff(r: Request, p: nat)
    requires Sound(r) && Unmixed(r) && p <= |r.docs| && AllRight(r, Remaining(r, p))
    ensures NothingOff(r, Remaining(r, p))
    decreases |r.docs| - p
  {
    var left := Remaining(r, p);
    if |left| > r.limit {
      var q := BehindPage(r, p);
      RightMeansNothingOff(r, q);
      forall d | d in r.docs ensures !IsOff(r, left[r.limit - 1], d) {
        OffShows(r, q, d);
      }
      NothingOffCons(r, left);
    }
  }

  lemma NothingOffCons(r: Request, left: seq<Doc>)
    requires r.limit >= 1 && |left| > r.limit && NothingOff(r, left[r.limit..])
    requires forall d | d in r.docs :: !IsOff(r, left[r.limit - 1], d)
    ensures NothingOff(r, left)
  {
  }

  // Main result: following `next` shows exactly the matching documents, in order, if and only
  // if no document is off behind a full page.
  lemma PagesAreRightExactly(r: Request, pages: seq<Page>)
    requires Sound(r) && Unmixed(r) && Traversal(r, None, pages)
    ensures DataOf(pages) == Shown(r, Found(r)) <==> NothingOff(r, Found(r))
  {
    assert r.docs[0..] == r.docs;
    FindMembers(r.engine, r.docs, r.filters);
    if NothingOff(r, Found(r)) {
      PagesCoverTheMatches(r, pages);
    } else {
      PagesShow(r, None, Found(r), pages);
      if AllRight(r, Found(r)) {
        RightMeansNothingOff(r, 0);
      }
    }
  }

  // ---- What that comes to ----------------------------------------------------------------

  lemma {:induction false} PageEndsFollow(sort: Sort, left: seq<Doc>, limit: nat)
    requires limit >= 1 && Listed(sort, left)
    ensures forall b | b in PageEnds(left, limit) ::
      b in left && |left| > limit && (b == left[limit - 1] || Before(sort, left[limit - 1], b))
    decreases |left|
  {
    if |left| > limit {
      var rest := left[limit..];
      PageEndsFollow(sort, rest, limit);
      forall b | b in PageEnds(rest, limit) ensures b in left && Before(sort, left[limit - 1], b) {
        assert b in rest;
        var i :| 0 <= i < |rest| && rest[i] == b;
        assert left[limit + i] == b;
      }
    }
  }

  lemma PageEndsAreDocs(r: Request)
    requires Sound(r)
    ensures forall b | b in PageEnds(Found(r), r.limit) ::
      && b in r.docs && |Found(r)| > r.limit
      && (b == Found(r)[r.limit - 1] || Before(r.sort, Found(r)[r.limit - 1], b))
  {
    FindIsListed(r.engine, r.sort, r.docs, r.filters);
    FindMembers(r.engine, r.docs, r.filters);
    PageEndsFollow(r.sort, Found(r), r.limit);
  }

  // Behind the first page a document matches the filter without its `$or` only if it matches.
  ghost predicate OrHolds(r: Request)
    requires r.limit >= 1
  {
    |Found(r)| > r.limit ==>
      forall d | d in r.docs && Before(r.sort, Found(r)[r.limit - 1], d) ::
        Matches(r.engine, r.filters.(ors := []), d) ==> Matches(r.engine, r.filters, d)
  }

  // Main result: without nulls in the sort fields the `$or` alone decides, behind the first page.
  lemma OrDecides(r: Request)
    requires Sound(r) && NoNulls(r)
    ensures NothingOff(r, Found(r)) <==> OrHolds(r)
  {
    PageEndsAreDocs(r);
    var ends := PageEnds(Found(r), r.limit);
    forall b, d | b in ends && d in r.docs
      ensures IsOff(r, b, d) <==>
        (Before(r.sort, b, d) && Matches(r.engine, r.filters.(ors := []), d) && !Matches(r.engine, r.filters, d))
    {
      assert PrimaryField(r.sort) in AllFields(r.sort);
      NoNullNoStep(AllFields(r.sort), b, d);
    }
    if |Found(r)| > r.limit {
      var first := Found(r)[r.limit - 1];
      assert ends == [first] + PageEnds(Found(r)[r.limit..], r.limit);
      forall b, d | b in ends && d in r.docs && Before(r.sort, b, d) ensures Before(r.sort, first, d) {
        LexIsStrict(AllFields(r.sort), r.sort.ascending, first, b, d);
      }
    }
  }

  // Nothing is ever off without an `$or`, unless nulls meet a sort that is not ascending by
  // one field.
  lemma NothingOffPlainly(r: Request)
    requires Sound(r) && r.filters.ors == []
    requires NoNulls(r) || (r.sort.ascending && |r.sort.fields| <= 1)
    ensures NothingOff(r, Found(r))
  {
    assert r.filters.(ors := []) == r.filters;
    if NoNulls(r) {
      OrDecides(r);
    }
  }

  // Every traversal ends.
  lemma {:induction false} TraversalExists(r: Request, after: Option<Cursor>, p: nat) returns (pages: seq<Page>)
    requires Sound(r) && p <= |r.docs| && forall d | d in FoundAfter(r, after) :: d in r.docs[p..]
    ensures Traversal(r, after, pages)
    decreases |r.docs| - p
  {
    var first := PageAfter(r, after);
    if first.next.None? {
      pages := [first];
    } else {
      var q := NextStarts(r, after, p);
      var rest := TraversalExists(r, first.next, q);
      pages := [first] + rest;
      assert pages[1..] == rest;
    }
  }

  lemma NextStarts(r: Request, after: Option<Cursor>, p: nat) returns (q: nat)
    requires Sound(r) && p <= |r.docs| && forall d | d in FoundAfter(r, after) :: d in r.docs[p..]
    requires PageAfter(r, after).next.Some?
    ensures p < q <= |r.docs| && forall d | d in FoundAfter(r, PageAfter(r, after).next) :: d in r.docs[q..]
  {
    PageShows(r, after, FoundAfter(r, after));
    var last := FoundAfter(r, after)[r.limit - 1];
    assert last in FoundAfter(r, after);
    var i :| 0 <= i < |r.docs[p..]| && r.docs[p..][i] == last;
    q := p + i + 1;
    assert r.docs[q - 1] == last;
    BehindStays(r, q);
  }

  lemma BehindStays(r: Request, p: nat)
    requires Sound(r) && 1 <= p <= |r.docs|
    ensures forall d | d in Behind(r, r.docs[p - 1]) :: d in r.docs[p..]
  {
    BehindIsPast(r, p);
    FindMembers(r.engine, r.docs[p..], QueryFor(r.filters, r.sort, Some(EncodeCursor(r.docs[p - 1], r.sort))));
  }

  lemma {:induction false} PageCountIsCeiling(n: nat, limit: nat)
    requires n > 0 && limit >= 1
    ensures limit * (PageCount(n, limit) - 1) < n <= limit * PageCount(n, limit)
  {
    if n > limit {
      PageCountIsCeiling(n - limit, limit);
    }
  }

  // A listed collection has no duplicates, so once is once.
  lemma ListedIsDistinct(sort: Sort, docs: seq<Doc>)
    requires Listed(sort, docs)
    ensures forall i, j | 0 <= i < j < |docs| :: docs[i] != docs[j]
  {
    forall i, j | 0 <= i < j < |docs| ensures docs[i] != docs[j] {
      assert Before(sort, docs[i], docs[j]);
      LexIsStrict(AllFields(sort), sort.ascending, docs[i], docs[i], docs[i]);
    }
  }

  // ---- Two documents, the second without the sort field -----------------------------------

  const RATED: Doc := map["_id" := Oid(1), "stars" := Num(5)]
  const UNRATED: Doc := map["_id" := Oid(2)]

  function ByStars(e: Engine): Request {
    Request(e, [RATED, UNRATED], EVERYTHING, Sort(["stars"], false), 1, NoSelect)
  }

  lemma {:induction false} EverythingIsFound(e: Engine, docs: seq<Doc>)
    ensures Find(e, docs, EVERYTHING) == docs
    decreases |docs|
  {
    if docs != [] {
      EverythingIsFound(e, docs[1..]);
      assert docs == [docs[0]] + docs[1..];
    }
  }

  lemma StarsAreSound(e: Engine)
    ensures Sound(ByStars(e)) && Behind(ByStars(e), RATED) == []
  {
    var r := ByStars(e);
    BySingleField(r.sort, RATED, UNRATED);
    BySingleField(r.sort, RATED, RATED);
    AskedIsFound(r, RATED);
    HasMember(Behind(r, RATED));
  }

  lemma HasMember(docs: seq<Doc>)
    ensures docs != [] ==> exists d :: d in docs
  {
    if docs != [] {
      assert docs[0] in docs;
    }
  }

  lemma StarsFetchRight(e: Engine)
    ensures FetchesRight(ByStars(e), [RATED, UNRATED], [RATED]) && AllRight(ByStars(e), [RATED])
  {
    StarsAreSound(e);
  }

  // Both match and both are in the list; the second is never shown.
  lemma DescendingNullIsLost(e: Engine, pages: seq<Page>)
    requires Traversal(ByStars(e), None, pages)
    ensures Found(ByStars(e)) == [RATED, UNRATED]
    ensures DataOf(pages) == Shown(ByStars(e), [RATED])
  {
    var r := ByStars(e);
    StarsAreSound(e);
    EverythingIsFound(e, r.docs);
    StarsFetchRight(e);
    PagesShow(r, None, [RATED], pages);
  }
}

module SearchPaging {
  import opened Common
  import opened Queries
  import opened KeysetOrder
  import opened KeysetFilter
  import opened Pagination
  import opened Like
  import opened SearchMerge

  // The search text is in one of the search fields, as the engine reads it.
  predicate Hit(e: Engine, search: string, searchFields: seq<string>, d: Doc) {
    exists i | 0 <= i < |searchFields| ::
      Read(d, searchFields[i]).Str? && e.regex(Escaped(search), "i", Read(d, searchFields[i]).s)
  }

  // A regex search over a filter, paged.
  function Searched(r: Request, search: string, searchFields: seq<string>): Request {
    r.(filters := SearchQuery(r.filters, search, searchFields))
  }

  lemma SearchMatches(e: Engine, filters: Query, search: string, searchFields: seq<string>, d: Doc)
    requires searchFields != []
    ensures Matches(e, SearchQuery(filters, search, searchFields), d)
      <==> Matches(e, filters, d) && Hit(e, search, searchFields, d)
  {
    MergeIsConjunction(filters, search, searchFields);
  }

  // Behind the first page every document that matches the filter is a hit.
  ghost predicate HitsBehind(r: Request, search: string, searchFields: seq<string>)
    requires r.limit >= 1
  {
    var found := Found(Searched(r, search, searchFields));
    |found| > r.limit ==>
      forall d | d in r.docs && Before(r.sort, found[r.limit - 1], d) && Matches(r.engine, r.filters, d) ::
        Hit(r.engine, search, searchFields, d)
  }

  lemma HitsDecide(r: Request, search: string, searchFields: seq<string>)
    requires r.limit >= 1 && searchFields != []
    ensures OrHolds(Searched(r, search, searchFields)) <==>
      (r.filters.ors == [] ==> HitsBehind(r, search, searchFields))
  {
    var s := Searched(r, search, searchFields);
    if r.filters.ors == [] {
      assert s.filters.(ors := []) == r.filters;
      forall d
        ensures Matches(r.engine, s.filters, d) <==>
          Matches(r.engine, r.filters, d) && Hit(r.engine, search, searchFields, d)
      {
        SearchMatches(r.engine, r.filters, search, searchFields, d);
      }
    } else {
      assert s.filters.(ors := []) == s.filters;
    }
  }

  // Main result: a paged search over a filter with its own `$or` shows exactly the hits; over
  // one without, if and only if every document that matches it behind the first page is a hit.
  lemma SearchedPagesExactly(r: Request, search: string, searchFields: seq<string>, pages: seq<Page>)
    requires Sound(r) && NoNulls(r) && searchFields != []
    requires Traversal(Searched(r, search, searchFields), None, pages)
    ensures
      var s := Searched(r, search, searchFields);
      DataOf(pages) == Shown(s, Found(s)) <==> (r.filters.ors == [] ==> HitsBehind(r, search, searchFields))
  {
    var s := Searched(r, search, searchFields);
    HitsDecide(r, search, searchFields);
    PagesAreRightExactly(s, pages);
    OrDecides(s);
  }

  const BOOK: Doc := map["_id" := Oid(1), "title" := Str("a")]
  const OTHER: Doc := map["_id" := Oid(2), "title" := Str("")]
  const SEQUEL: Doc := map["_id" := Oid(3), "title" := Str("a")]
  const SHELF := [BOOK, OTHER, SEQUEL]
  const TITLE := ["title"]

  function Shelf(e: Engine): Request {
    Request(e, SHELF, SearchQuery(EVERYTHING, "a", TITLE), Sort([], true), 1, NoSelect)
  }

  lemma ShelfHits(e: Engine, fold: char -> char)
    requires ReadsLiterals(e.regex, fold)
    ensures Hit(e, "a", TITLE, BOOK) && !Hit(e, "a", TITLE, OTHER) && Hit(e, "a", TITLE, SEQUEL)
  {
    SearchFindsSubstrings(e, fold, "a", "a");
    SearchFindsSubstrings(e, fold, "a", "");
    assert StartsWith(Insensitive(fold), "a", "a"[0..]);
    assert Read(BOOK, TITLE[0]) == Str("a") == Read(SEQUEL, TITLE[0]);
  }

  lemma ShelfIsSound(e: Engine)
    ensures Sound(Shelf(e)) && NoNulls(Shelf(e))
  {
    var sort := Sort([], true);
    BySingleField(sort, BOOK, OTHER);
    BySingleField(sort, OTHER, SEQUEL);
    BySingleField(sort, BOOK, SEQUEL);
  }

  lemma {:induction false} FindStarts(e: Engine, docs: seq<Doc>, q: Query, n: nat)
    requires n < |docs| && Matches(e, q, docs[n]) && forall i | 0 <= i < n :: !Matches(e, q, docs[i])
    ensures Find(e, docs, q) == [docs[n]] + Find(e, docs[n + 1..], q)
    decreases n
  {
    if n > 0 {
      FindStarts(e, docs[1..], q, n - 1);
      assert docs[1..][n..] == docs[n + 1..];
    }
  }

  // The second page of a search returns a document that the search does not find.
  method SearchIsDropped(e: Engine, ghost fold: char -> char) returns (first: Page, second: Page)
    requires ReadsLiterals(e.regex, fold)
    ensures first.data == [BOOK] && Hit(e, "a", TITLE, BOOK)
    ensures second.data == [OTHER] && !Hit(e, "a", TITLE, OTHER)
  {
    var query := BuildSearchQuery(EVERYTHING, "a", RegexMode, false, TITLE);
    var engine := new PaginationEngine(Config(1, 0), e);
    ShelfHits(e, fold);
    first := engine.Stream(SHELF, query.value, Sort([], true), 1, NoSelect, None);
    assert first == PageAfter(Shelf(e), None);
    FirstOfShelf(e, fold, first);
    second := engine.Stream(SHELF, query.value, Sort([], true), 1, NoSelect, first.next);
    assert second == PageAfter(Shelf(e), first.next);
    SecondOfShelf(e, second);
  }

  // A page of one, with more behind it.
  lemma PageOfOne(r: Request, after: Option<Cursor>, d: Doc)
    requires Sound(r) && r.limit == 1 && r.select == NoSelect
    requires |FoundAfter(r, after)| > 1 && FoundAfter(r, after)[0] == d
    ensures PageAfter(r, after).data == [d] && PageAfter(r, after).next == Some(EncodeCursor(d, r.sort))
  {
    PageShows(r, after, FoundAfter(r, after));
    assert Project(EnsureCursorFields(NoSelect, r.sort), d) == d;
    assert Take(FoundAfter(r, after), 1) == [d];
  }

  lemma FirstOfShelf(e: Engine, fold: char -> char, page: Page)
    requires ReadsLiterals(e.regex, fold) && page == PageAfter(Shelf(e), None)
    ensures page.data == [BOOK] && page.next == Some(EncodeCursor(BOOK, Sort([], true)))
  {
    ShelfIsSound(e);
    ShelfIsFound(e, fold);
    PageOfOne(Shelf(e), None, BOOK);
  }

  lemma ShelfIsFound(e: Engine, fold: char -> char)
    requires ReadsLiterals(e.regex, fold)
    ensures Found(Shelf(e)) == [BOOK, SEQUEL]
  {
    var q := Shelf(e).filters;
    ShelfMatches(e, fold);
    FindStarts(e, SHELF, q, 0);
    assert SHELF[1..] == [OTHER, SEQUEL];
    FindStarts(e, [OTHER, SEQUEL], q, 1);
  }

  lemma ShelfMatches(e: Engine, fold: char -> char)
    requires ReadsLiterals(e.regex, fold)
    ensures
      var q := Shelf(e).filters;
      Matches(e, q, BOOK) && !Matches(e, q, OTHER) && Matches(e, q, SEQUEL)
  {
    MergeIsConjunction(EVERYTHING, "a", TITLE);
    ShelfHits(e, fold);
    MatchesHits(e, Shelf(e).filters, BOOK);
    MatchesHits(e, Shelf(e).filters, OTHER);
    MatchesHits(e, Shelf(e).filters, SEQUEL);
  }

  lemma MatchesHits(e: Engine, q: Query, d: Doc)
    requires Merged(EVERYTHING, "a", TITLE, q)
    ensures Matches(e, q, d) <==> Hit(e, "a", TITLE, d)
  {
    assert Matches(e, EVERYTHING, d);
  }

  lemma SecondOfShelf(e: Engine, page: Page)
    requires page == PageAfter(Shelf(e), Some(EncodeCursor(BOOK, Sort([], true))))
    ensures page.data == [OTHER]
  {
    var r := Shelf(e);
    ShelfIsSound(e);
    BehindBook(e);
    TwoInOrder(r.sort, FoundAfter(r, Some(EncodeCursor(BOOK, r.sort))), OTHER, SEQUEL);
    PageOfOne(r, Some(EncodeCursor(BOOK, r.sort)), OTHER);
  }

  lemma BehindBook(e: Engine)
    ensures
      var r := Shelf(e);
      var found := FoundAfter(r, Some(EncodeCursor(BOOK, r.sort)));
      && (forall d :: d in found <==> d == OTHER || d == SEQUEL)
      && Listed(r.sort, found) && Before(r.sort, OTHER, SEQUEL)
  {
    ShelfIsSound(e);
    AllAreAsked(e);
    TwoBehind(Shelf(e), BOOK, OTHER, SEQUEL);
  }

  lemma TwoBehind(r: Request, a: Doc, b: Doc, c: Doc)
    requires Sound(r) && r.docs == [a, b, c] && IsAsked(r, a, b) && IsAsked(r, a, c) && !IsAsked(r, a, a)
    ensures
      var found := FoundAfter(r, Some(EncodeCursor(a, r.sort)));
      && (forall d :: d in found <==> d == b || d == c)
      && Listed(r.sort, found) && Before(r.sort, b, c)
  {
    AskedIsFound(r, a);
    assert b == r.docs[1] && c == r.docs[2];
  }

  lemma AllAreAsked(e: Engine)
    ensures IsAsked(Shelf(e), BOOK, OTHER) && IsAsked(Shelf(e), BOOK, SEQUEL) && !IsAsked(Shelf(e), BOOK, BOOK)
  {
    var r := Shelf(e);
    assert r.filters.(ors := []) == EVERYTHING;
    BySingleField(r.sort, BOOK, BOOK);
    BySingleField(r.sort, BOOK, OTHER);
    BySingleField(r.sort, BOOK, SEQUEL);
  }

  lemma TwoInOrder(sort: Sort, docs: seq<Doc>, a: Doc, b: Doc)
    requires Listed(sort, docs) && Before(sort, a, b) && forall d :: d in docs <==> d == a || d == b
    ensures |docs| > 1 && docs[0] == a
  {
    assert a in docs && b in docs;
    LexIsStrict(AllFields(sort), sort.ascending, a, b, a);
    assert docs[0] in docs;
  }
}

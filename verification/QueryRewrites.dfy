// The rewrites a query goes through before it reaches the server: re-rooting for change
// streams, search merging, policy merging and schema casting.

module ChangeStreamMatch {
  import opened Queries

  function Prefixed(q: Query, prefix: string): Query
    decreases q
  {
    Query(
      seq(|q.fields|, i requires 0 <= i < |q.fields| =>
        FieldTest(prefix + "." + q.fields[i].path, q.fields[i].test)),
      seq(|q.ands|, i requires 0 <= i < |q.ands| => Prefixed(q.ands[i], prefix)),
      seq(|q.ors|, i requires 0 <= i < |q.ors| => Prefixed(q.ors[i], prefix)),
      seq(|q.nors|, i requires 0 <= i < |q.nors| => Prefixed(q.nors[i], prefix)),
      q.nots,
      q.exprs,
      q.texts)
  }

  // The change event carries the post-image under the prefix.
  ghost predicate Carries(event: Doc, prefix: string, image: Doc) {
    forall x :: Read(event, prefix + "." + x) == Read(image, x)
  }

  // $text and the like do not address paths and are passed through as they are.
  predicate PathsOnly(q: Query)
    decreases q
  {
    && q.texts == []
    && (forall i | 0 <= i < |q.ands| :: PathsOnly(q.ands[i]))
    && (forall i | 0 <= i < |q.ors| :: PathsOnly(q.ors[i]))
    && (forall i | 0 <= i < |q.nors| :: PathsOnly(q.nors[i]))
  }

  // Main result: the re-rooted query matches the event exactly when the query matches the image.
  lemma {:induction false} PrefixingPreservesMatching(e: Engine, q: Query, prefix: string, event: Doc, image: Doc)
    requires PathsOnly(q) && Carries(event, prefix, image)
    ensures Matches(e, Prefixed(q, prefix), event) <==> Matches(e, q, image)
    decreases q
  {
    var p := Prefixed(q, prefix);
    forall i | 0 <= i < |q.fields|
      ensures Read(event, p.fields[i].path) == Read(image, q.fields[i].path)
    {
    }
    forall i | 0 <= i < |q.ands| ensures Matches(e, p.ands[i], event) <==> Matches(e, q.ands[i], image) {
      PrefixingPreservesMatching(e, q.ands[i], prefix, event, image);
    }
    forall i | 0 <= i < |q.ors| ensures Matches(e, p.ors[i], event) <==> Matches(e, q.ors[i], image) {
      PrefixingPreservesMatching(e, q.ors[i], prefix, event, image);
    }
    forall i | 0 <= i < |q.nors| ensures Matches(e, p.nors[i], event) <==> Matches(e, q.nors[i], image) {
      PrefixingPreservesMatching(e, q.nors[i], prefix, event, image);
    }
  }

  // An event without a post-image (a delete) is matched as an empty document.
  lemma DeleteMatchesAsEmpty(e: Engine, q: Query, prefix: string, event: Doc)
    requires PathsOnly(q) && forall x :: prefix + "." + x !in event
    ensures Matches(e, Prefixed(q, prefix), event) <==> Matches(e, q, map[])
  {
    PrefixingPreservesMatching(e, q, prefix, event, map[]);
  }

  method PrefixMatchPaths(q: Query, prefix: string) returns (out: Query)
    ensures out == Prefixed(q, prefix)
    decreases q
  {
    out := EVERYTHING.(nots := q.nots, exprs := q.exprs, texts := q.texts);
    for i := 0 to |q.fields|
      invariant out == EVERYTHING.(fields := Prefixed(q, prefix).fields[..i], nots := q.nots,
                                   exprs := q.exprs, texts := q.texts)
    {
      out := out.(fields := out.fields + [FieldTest(prefix + "." + q.fields[i].path, q.fields[i].test)]);
    }
    for i := 0 to |q.ands|
      invariant out == EVERYTHING.(fields := Prefixed(q, prefix).fields, ands := Prefixed(q, prefix).ands[..i],
                                   nots := q.nots, exprs := q.exprs, texts := q.texts)
    {
      var clause := PrefixMatchPaths(q.ands[i], prefix);
      out := out.(ands := out.ands + [clause]);
    }
    for i := 0 to |q.ors|
      invariant out == Prefixed(q, prefix).(ors := Prefixed(q, prefix).ors[..i], nors := [])
    {
      var clause := PrefixMatchPaths(q.ors[i], prefix);
      out := out.(ors := out.ors + [clause]);
    }
    for i := 0 to |q.nors|
      invariant out == Prefixed(q, prefix).(nors := Prefixed(q, prefix).nors[..i])
    {
      var clause := PrefixMatchPaths(q.nors[i], prefix);
      out := out.(nors := out.nors + [clause]);
    }
  }
}

module SearchMerge {
  import opened Common
  import opened Queries
  import opened Like

  datatype Mode = TextMode | RegexMode | AutoMode

  datatype Error = NoSearchFields | NoTextIndex

  function Escaped(s: string): string {
    if s == "" then "" else EscapeRegexChar(s[0]) + Escaped(s[1..])
  }

  // An unanchored pattern of literal and escaped characters.
  function ParseLiteral(p: string): Option<string> {
    if p == "" then Some("")
    else if p[0] == '\\' then
      if |p| >= 2 && IsMeta(p[1]) then
        var tail := ParseLiteral(p[2..]);
        if tail.None? then None else Some([p[1]] + tail.value)
      else None
    else if IsMeta(p[0]) then None
    else
      var tail := ParseLiteral(p[1..]);
      if tail.None? then None else Some([p[0]] + tail.value)
  }

  lemma {:induction false} EscapedIsLiteral(s: string)
    ensures ParseLiteral(Escaped(s)) == Some(s)
  {
    if s != "" {
      EscapedIsLiteral(s[1..]);
      var p := Escaped(s);
      if IsMeta(s[0]) {
        assert p[0] == '\\' && p[1] == s[0] && p[2..] == Escaped(s[1..]);
      } else {
        assert p[0] == s[0] && p[1..] == Escaped(s[1..]);
      }
      assert [s[0]] + s[1..] == s;
    }
  }

  predicate StartsWith(k: Case, needle: string, text: string) {
    |needle| <= |text| && forall i | 0 <= i < |needle| :: SameChar(k, needle[i], text[i])
  }

  predicate Contains(k: Case, needle: string, text: string) {
    exists n | 0 <= n <= |text| :: StartsWith(k, needle, text[n..])
  }

  // An engine that searches for such a pattern as a substring, folding case under "i".
  ghost predicate ReadsLiterals(regex: (string, string, string) -> bool, fold: char -> char) {
    forall p, t | ParseLiteral(p).Some? :: regex(p, "i", t) <==> Contains(Insensitive(fold), ParseLiteral(p).value, t)
  }

  function Condition(field: string, search: string): Query {
    Field(field, Ops([Regex(Escaped(search), "i")]))
  }

  // The search goes into `$or`; an `$or` that is there moves, with the search, into `$and`.
  function SearchQuery(filters: Query, search: string, searchFields: seq<string>): Query {
    var conds := Conditions(searchFields, search);
    if filters.ors == [] then filters.(ors := conds)
    else filters.(ors := [], ands := filters.ands + [EVERYTHING.(ors := filters.ors), EVERYTHING.(ors := conds)])
  }

  method BuildSearchQuery(filters: Query, search: string, mode: Mode, hasTextIndex: bool, searchFields: seq<string>)
    returns (r: Result<Query, Error>)
    ensures search == "" ==> r == Ok(filters)
    ensures search != "" && r.Err? ==>
      r.error == (if mode == RegexMode || (mode == AutoMode && !hasTextIndex) then NoSearchFields else NoTextIndex)
    ensures search != "" ==> (r.Err? <==>
      if mode == RegexMode || (mode == AutoMode && !hasTextIndex) then searchFields == [] else !hasTextIndex)
    ensures search != "" && r.Ok? && (mode == RegexMode || (mode == AutoMode && !hasTextIndex)) ==>
      r.value == SearchQuery(filters, search, searchFields) && Merged(filters, search, searchFields, r.value)
    ensures search != "" && r.Ok? && !(mode == RegexMode || (mode == AutoMode && !hasTextIndex)) ==>
      r.value == filters.(texts := [search])
  {
    var query := filters;
    if search == "" {
      return Ok(query);
    }
    var regexMode := mode == RegexMode;
    if mode == AutoMode {
      regexMode := !hasTextIndex;
    }
    if regexMode {
      if searchFields == [] {
        return Err(NoSearchFields);
      }
      var orConds := seq(|searchFields|, i requires 0 <= i < |searchFields| => Condition(searchFields[i], search));
      if query.ors != [] {
        var existingOr := query.ors;
        query := query.(ors := []);
        query := query.(ands := query.ands + [EVERYTHING.(ors := existingOr), EVERYTHING.(ors := orConds)]);
      } else {
        query := query.(ors := orConds);
      }
      assert orConds == Conditions(searchFields, search);
      MergeIsConjunction(filters, search, searchFields);
    } else if hasTextIndex {
      query := query.(texts := [search]);
    } else {
      return Err(NoTextIndex);
    }
    return Ok(query);
  }

  // The merged query asks for the old filter and for the search text in some search field,
  // whatever $and and $or the old filter had.
  ghost predicate Merged(filters: Query, search: string, searchFields: seq<string>, q: Query) {
    forall e: Engine, d: Doc :: Matches(e, q, d) <==>
      Matches(e, filters, d)
      && exists i | 0 <= i < |searchFields| ::
           Read(d, searchFields[i]).Str? && e.regex(Escaped(search), "i", Read(d, searchFields[i]).s)
  }

  function Conditions(searchFields: seq<string>, search: string): seq<Query> {
    seq(|searchFields|, i requires 0 <= i < |searchFields| => Condition(searchFields[i], search))
  }

  lemma ConditionMatches(e: Engine, field: string, search: string, d: Doc)
    ensures Matches(e, Condition(field, search), d)
      <==> Read(d, field).Str? && e.regex(Escaped(search), "i", Read(d, field).s)
  {
    var test := Ops([Regex(Escaped(search), "i")]);
    assert Condition(field, search).fields[0] == FieldTest(field, test);
    assert Passes(e, test, Read(d, field)) <==> OpHolds(e, test.ops[0], Read(d, field));
  }

  lemma ConditionsMatch(e: Engine, searchFields: seq<string>, search: string, d: Doc)
    ensures (exists i | 0 <= i < |searchFields| :: Matches(e, Conditions(searchFields, search)[i], d))
      <==> exists i | 0 <= i < |searchFields| ::
             Read(d, searchFields[i]).Str? && e.regex(Escaped(search), "i", Read(d, searchFields[i]).s)
  {
    forall i | 0 <= i < |searchFields|
      ensures Matches(e, Conditions(searchFields, search)[i], d)
        <==> Read(d, searchFields[i]).Str? && e.regex(Escaped(search), "i", Read(d, searchFields[i]).s)
    {
      ConditionMatches(e, searchFields[i], search, d);
    }
  }

  lemma OrAlone(e: Engine, ors: seq<Query>, d: Doc)
    requires ors != []
    ensures Matches(e, EVERYTHING.(ors := ors), d) <==> exists i | 0 <= i < |ors| :: Matches(e, ors[i], d)
  {
  }

  lemma AppendTwo(e: Engine, qs: seq<Query>, a: Query, b: Query, d: Doc)
    ensures (forall i | 0 <= i < |qs + [a, b]| :: Matches(e, (qs + [a, b])[i], d))
      <==> (forall i | 0 <= i < |qs| :: Matches(e, qs[i], d)) && Matches(e, a, d) && Matches(e, b, d)
  {
    var all := qs + [a, b];
    assert all[|qs|] == a && all[|qs| + 1] == b;
    assert forall i | 0 <= i < |qs| :: all[i] == qs[i];
  }

  lemma OrApart(e: Engine, q: Query, d: Doc)
    requires q.ors != []
    ensures Matches(e, q, d) <==> Matches(e, q.(ors := []), d) && Matches(e, EVERYTHING.(ors := q.ors), d)
  {
    OrAlone(e, q.ors, d);
  }

  lemma AndsApart(e: Engine, q: Query, ands: seq<Query>, d: Doc)
    requires forall i | 0 <= i < |q.ands| :: q.ands[i] in ands
    ensures Matches(e, q.(ands := ands), d) <==>
      Matches(e, q, d) && forall i | 0 <= i < |ands| :: Matches(e, ands[i], d)
  {
  }

  lemma OrMoves(e: Engine, q: Query, conds: seq<Query>, d: Doc)
    requires q.ors != [] && conds != []
    ensures
      var moved := q.(ors := [], ands := q.ands + [EVERYTHING.(ors := q.ors), EVERYTHING.(ors := conds)]);
      Matches(e, moved, d) <==> Matches(e, q, d) && Matches(e, EVERYTHING.(ors := conds), d)
  {
    var own, added := EVERYTHING.(ors := q.ors), EVERYTHING.(ors := conds);
    OrApart(e, q, d);
    AndsApart(e, q.(ors := []), q.ands + [own, added], d);
    AppendTwo(e, q.ands, own, added, d);
  }

  lemma OrAdded(e: Engine, q: Query, conds: seq<Query>, d: Doc)
    requires q.ors == [] && conds != []
    ensures Matches(e, q.(ors := conds), d) <==> Matches(e, q, d) && Matches(e, EVERYTHING.(ors := conds), d)
  {
    OrAlone(e, conds, d);
  }

  lemma MergeIsConjunction(filters: Query, search: string, searchFields: seq<string>)
    requires searchFields != []
    ensures Merged(filters, search, searchFields, SearchQuery(filters, search, searchFields))
  {
    var conds, q := Conditions(searchFields, search), SearchQuery(filters, search, searchFields);
    forall e: Engine, d: Doc
      ensures Matches(e, q, d) <==>
        Matches(e, filters, d)
        && exists i | 0 <= i < |searchFields| ::
             Read(d, searchFields[i]).Str? && e.regex(Escaped(search), "i", Read(d, searchFields[i]).s)
    {
      ConditionsMatch(e, searchFields, search, d);
      OrAlone(e, conds, d);
      if filters.ors == [] {
        OrAdded(e, filters, conds, d);
      } else {
        OrMoves(e, filters, conds, d);
      }
    }
  }

  // The escaped search text is found exactly where the text itself occurs.
  lemma SearchFindsSubstrings(e: Engine, fold: char -> char, search: string, text: string)
    requires ReadsLiterals(e.regex, fold)
    ensures e.regex(Escaped(search), "i", text) <==> Contains(Insensitive(fold), search, text)
  {
    EscapedIsLiteral(search);
  }
}

module PolicyMerge {
  import opened Common
  import opened Queries
  import opened FilterIR
  import CompileQuery

  // compileFilterToMongo's input: a Filter IR tree, or a query object already.
  datatype Input = IR(filter: Filter) | Plain(query: Query)

  function Compiled(i: Input): Result<Query, CompileQuery.Error> {
    match i
    case IR(f) => CompileQuery.Compile(f)
    case Plain(q) => Ok(q)
  }

  predicate Empty(i: Input) {
    i.Plain? && i.query == EVERYTHING
  }

  predicate Satisfied(e: Engine, i: Option<Input>, d: Doc) {
    i.Some? && Compiled(i.value).Ok? ==> Matches(e, Compiled(i.value).value, d)
  }

  predicate AllMatch(e: Engine, parts: seq<Query>, d: Doc) {
    forall i | 0 <= i < |parts| :: Matches(e, parts[i], d)
  }

  // The parts gathered so far ask for exactly the inputs handled so far.
  ghost predicate Gathered(parts: seq<Query>, inputs: seq<Option<Input>>) {
    forall e: Engine, d: Doc :: AllMatch(e, parts, d) <==> forall i | 0 <= i < |inputs| :: Satisfied(e, inputs[i], d)
  }

  lemma GatherOne(parts: seq<Query>, inputs: seq<Option<Input>>, next: Option<Input>)
    requires Gathered(parts, inputs)
    requires next.Some? ==> Compiled(next.value).Ok?
    ensures
      var more := next.Some? && Compiled(next.value).value != EVERYTHING;
      Gathered(if more then parts + [Compiled(next.value).value] else parts, inputs + [next])
  {
    var more := next.Some? && Compiled(next.value).value != EVERYTHING;
    var after := if more then parts + [Compiled(next.value).value] else parts;
    forall e: Engine, d: Doc
      ensures AllMatch(e, after, d) <==> forall i | 0 <= i < |inputs + [next]| :: Satisfied(e, (inputs + [next])[i], d)
    {
      InputsGrow(e, inputs, next, d);
      if more {
        PartsGrow(e, parts, Compiled(next.value).value, d);
      }
    }
  }

  lemma InputsGrow(e: Engine, inputs: seq<Option<Input>>, next: Option<Input>, d: Doc)
    ensures (forall i | 0 <= i < |inputs + [next]| :: Satisfied(e, (inputs + [next])[i], d))
      <==> (forall i | 0 <= i < |inputs| :: Satisfied(e, inputs[i], d)) && Satisfied(e, next, d)
  {
    var all := inputs + [next];
    assert all[|inputs|] == next && forall i | 0 <= i < |inputs| :: all[i] == inputs[i];
  }

  lemma PartsGrow(e: Engine, parts: seq<Query>, q: Query, d: Doc)
    ensures AllMatch(e, parts + [q], d) <==> AllMatch(e, parts, d) && Matches(e, q, d)
  {
    var all := parts + [q];
    assert all[|parts|] == q && forall i | 0 <= i < |parts| :: all[i] == parts[i];
  }

  // The merged filter of the request: one part as it is, several under $and.
  function Merged(parts: seq<Query>): Query
    requires parts != []
  {
    if |parts| == 1 then parts[0] else EVERYTHING.(ands := parts)
  }

  lemma MergedAsksForAll(parts: seq<Query>)
    requires parts != []
    ensures forall e: Engine, d: Doc :: Matches(e, Merged(parts), d) <==> AllMatch(e, parts, d)
  {
    forall e: Engine, d: Doc
      ensures Matches(e, Merged(parts), d) <==> AllMatch(e, parts, d)
    {
      CompileQuery.AndsMatch(e, parts, d);
    }
  }

  ghost predicate AsksFor(r: Option<Input>, a: Option<Input>, b: Option<Input>, c: Option<Input>) {
    forall e: Engine, d: Doc ::
      Satisfied(e, r, d) <==> Satisfied(e, a, d) && Satisfied(e, b, d) && Satisfied(e, c, d)
  }

  lemma ThreeInputs(parts: seq<Query>, a: Option<Input>, b: Option<Input>, c: Option<Input>)
    requires Gathered(parts, [a, b, c])
    ensures parts != [] ==> AsksFor(Some(Plain(Merged(parts))), a, b, c)
    ensures parts == [] ==> AsksFor(c, a, b, c)
  {
    var inputs := [a, b, c];
    forall e: Engine, d: Doc
      ensures AllMatch(e, parts, d) <==> Satisfied(e, a, d) && Satisfied(e, b, d) && Satisfied(e, c, d)
    {
      assert inputs[0] == a && inputs[1] == b && inputs[2] == c;
    }
    if parts != [] {
      MergedAsksForAll(parts);
    }
  }

  // The scopes policy hooks left in context.filters and context.query are conjoined with the
  // request's filter; without a scope the request is untouched.
  method InjectPolicyScope(filters: Option<Input>, query: Option<Input>, filter: Option<Input>)
    returns (r: Result<Option<Input>, CompileQuery.Error>)
    ensures (filters.None? || Empty(filters.value)) && (query.None? || Empty(query.value)) ==> r == Ok(filter)
    ensures r.Ok? ==> AsksFor(r.value, filters, query, filter)
    ensures r.Err? ==> exists i :: Some(i) in [filters, query, filter] && Compiled(i).Err?
  {
    if (filters.None? || Empty(filters.value)) && (query.None? || Empty(query.value)) {
      EmptyScopes(filters, query, filter);
      return Ok(filter);
    }
    var candidates := [filters, query, filter];
    var parts: seq<Query> := [];
    for i := 0 to 3
      invariant Gathered(parts, candidates[..i])
    {
      if candidates[i].Some? {
        var compiled := Compiled(candidates[i].value);
        if compiled.Err? {
          assert Some(candidates[i].value) in candidates;
          return Err(compiled.error);
        }
        GatherOne(parts, candidates[..i], candidates[i]);
        if compiled.value != EVERYTHING {
          parts := parts + [compiled.value];
        }
      } else {
        GatherOne(parts, candidates[..i], candidates[i]);
      }
      assert candidates[..i + 1] == candidates[..i] + [candidates[i]];
    }
    assert candidates[..3] == candidates;
    ThreeInputs(parts, filters, query, filter);
    if |parts| == 0 {
      return Ok(filter);
    }
    return Ok(Some(Plain(if |parts| == 1 then parts[0] else EVERYTHING.(ands := parts))));
  }

  lemma EmptyScopes(filters: Option<Input>, query: Option<Input>, filter: Option<Input>)
    requires (filters.None? || Empty(filters.value)) && (query.None? || Empty(query.value))
    ensures AsksFor(filter, filters, query, filter)
  {
    assert forall e: Engine, d: Doc :: Matches(e, EVERYTHING, d);
  }
}

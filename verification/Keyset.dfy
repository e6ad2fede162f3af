// Keyset pagination: each page is found by a query for the rows past the last one seen.

module KeysetOrder {
  import opened Common
  import opened Queries

  // A validated sort: distinct fields other than _id, one direction, _id last as tiebreak.
  datatype Sort = Sort(fields: seq<string>, ascending: bool)

  function AllFields(sort: Sort): seq<string> {
    sort.fields + ["_id"]
  }

  predicate ValidSort(sort: Sort) {
    "_id" !in sort.fields && forall i, j | 0 <= i < j < |sort.fields| :: sort.fields[i] != sort.fields[j]
  }

  datatype SortError = NoSortField | FieldNotAllowed | MixedDirections | IdDirection

  // validateKeysetSort over the caller's sort object, its keys in order; true is ascending.
  function ValidateKeysetSort(spec: seq<(string, bool)>, allowed: Option<seq<string>>): Result<Sort, SortError> {
    var others := Others(spec);
    if spec == [] then Err(NoSortField)
    else if others == [] then Ok(Sort([], spec[0].1))
    else if allowed.Some? && allowed.value != [] && exists i | 0 <= i < |others| :: others[i].0 !in allowed.value then
      Err(FieldNotAllowed)
    else if exists i | 0 <= i < |others| :: others[i].1 != others[0].1 then Err(MixedDirections)
    else if exists i | 0 <= i < |spec| :: spec[i].0 == "_id" && spec[i].1 != others[0].1 then Err(IdDirection)
    else Ok(Sort(seq(|others|, i requires 0 <= i < |others| => others[i].0), others[0].1))
  }

  function Others(spec: seq<(string, bool)>): seq<(string, bool)> {
    if spec == [] then []
    else (if spec[0].0 == "_id" then [] else [spec[0]]) + Others(spec[1..])
  }

  lemma {:induction false} OthersAreDistinct(spec: seq<(string, bool)>)
    requires forall i, j | 0 <= i < j < |spec| :: spec[i].0 != spec[j].0
    ensures forall o :: o in Others(spec) <==> o in spec && o.0 != "_id"
    ensures forall i, j | 0 <= i < j < |Others(spec)| :: Others(spec)[i].0 != Others(spec)[j].0
  {
    if spec != [] {
      OthersAreDistinct(spec[1..]);
      assert forall o | o in spec[1..] :: o.0 != spec[0].0;
    }
  }

  lemma OnlyId(spec: seq<(string, bool)>)
    requires forall i, j | 0 <= i < j < |spec| :: spec[i].0 != spec[j].0
    requires spec != [] && Others(spec) == []
    ensures spec == [("_id", spec[0].1)]
  {
    OthersAreDistinct(spec);
    forall i | 0 <= i < |spec| ensures spec[i].0 == "_id" {
      assert spec[i] in spec;
    }
  }

  lemma NamesOfOthers(spec: seq<(string, bool)>, fields: seq<string>, f: string)
    requires forall i, j | 0 <= i < j < |spec| :: spec[i].0 != spec[j].0
    requires |fields| == |Others(spec)| && forall i | 0 <= i < |fields| :: fields[i] == Others(spec)[i].0
    ensures f in fields <==> f != "_id" && ((f, true) in spec || (f, false) in spec)
  {
    OthersAreDistinct(spec);
    var others := Others(spec);
    if f in fields {
      var i :| 0 <= i < |fields| && fields[i] == f;
      var o := others[i];
      assert o in others;
      if o.1 {
        assert o == (f, true);
      } else {
        assert o == (f, false);
      }
    } else {
      forall o | o in others ensures o.0 != f {
        var i :| 0 <= i < |others| && others[i] == o;
        assert fields[i] in fields;
      }
      assert (f, true) !in others && (f, false) !in others;
    }
  }

  // An accepted sort keeps the caller's fields and directions and is total by its tiebreak.
  lemma AcceptedSortIsValid(spec: seq<(string, bool)>, allowed: Option<seq<string>>)
    requires forall i, j | 0 <= i < j < |spec| :: spec[i].0 != spec[j].0
    ensures ValidateKeysetSort(spec, allowed).Ok? ==>
      var sort := ValidateKeysetSort(spec, allowed).value;
      && ValidSort(sort)
      && (forall f :: f in sort.fields <==> f != "_id" && ((f, true) in spec || (f, false) in spec))
      && (forall o | o in spec :: o.1 == sort.ascending)
  {
    if ValidateKeysetSort(spec, allowed).Ok? {
      var sort, others := ValidateKeysetSort(spec, allowed).value, Others(spec);
      if others == [] {
        OnlyId(spec);
      } else {
        forall f ensures f in sort.fields <==> f != "_id" && ((f, true) in spec || (f, false) in spec) {
          NamesOfOthers(spec, sort.fields, f);
        }
        OthersAreDistinct(spec);
        forall o | o in spec ensures o.1 == sort.ascending {
          assert o.0 != "_id" ==> o in others;
        }
      }
    }
  }

  // ---- The order ---------------------------------------------------------------------

  // What `$gt` and `$lt` ask for: they stay within one type.
  predicate Precedes(ascending: bool, a: Value, b: Value) {
    if ascending then Less(a, b) else Less(b, a)
  }

  // How the server sorts: a null or missing field below every other value.
  predicate Ranked(a: Value, b: Value) {
    Less(a, b) || (a == Null && b != Null)
  }

  predicate Sorted(ascending: bool, a: Value, b: Value) {
    if ascending then Ranked(a, b) else Ranked(b, a)
  }

  predicate LexBefore(fields: seq<string>, ascending: bool, a: Doc, b: Doc) {
    fields != [] &&
    (Sorted(ascending, Read(a, fields[0]), Read(b, fields[0]))
     || (Read(a, fields[0]) == Read(b, fields[0]) && LexBefore(fields[1..], ascending, a, b)))
  }

  // The same tuple order over `$gt` or `$lt`.
  predicate LexAsks(fields: seq<string>, ascending: bool, a: Doc, b: Doc) {
    fields != [] &&
    (Precedes(ascending, Read(a, fields[0]), Read(b, fields[0]))
     || (Read(a, fields[0]) == Read(b, fields[0]) && LexAsks(fields[1..], ascending, a, b)))
  }

  predicate Before(sort: Sort, a: Doc, b: Doc) {
    LexBefore(AllFields(sort), sort.ascending, a, b)
  }

  // Where the two first differ, one of them holds null.
  predicate NullStep(fields: seq<string>, a: Doc, b: Doc) {
    fields != [] &&
    if Read(a, fields[0]) == Read(b, fields[0]) then NullStep(fields[1..], a, b)
    else Read(a, fields[0]) == Null || Read(b, fields[0]) == Null
  }

  lemma RankedIsStrict(a: Value, b: Value, c: Value)
    ensures !Ranked(a, a)
    ensures Ranked(a, b) && Ranked(b, c) ==> Ranked(a, c)
  {
    LessIsStrict(a, b, c);
  }

  lemma {:induction false} LexIsStrict(fields: seq<string>, ascending: bool, a: Doc, b: Doc, c: Doc)
    ensures !LexBefore(fields, ascending, a, a)
    ensures LexBefore(fields, ascending, a, b) && LexBefore(fields, ascending, b, c)
      ==> LexBefore(fields, ascending, a, c)
    decreases |fields|
  {
    if fields != [] {
      var x, y, z := Read(a, fields[0]), Read(b, fields[0]), Read(c, fields[0]);
      RankedIsStrict(x, y, z);
      RankedIsStrict(z, y, x);
      LexIsStrict(fields[1..], ascending, a, b, c);
    }
  }

  // The tuple order is asked for except across a null.
  lemma {:induction false} AsksButAcrossNull(fields: seq<string>, ascending: bool, a: Doc, b: Doc)
    ensures LexAsks(fields, ascending, a, b) <==> LexBefore(fields, ascending, a, b) && !NullStep(fields, a, b)
    decreases |fields|
  {
    if fields != [] {
      var x, y := Read(a, fields[0]), Read(b, fields[0]);
      RankedIsStrict(x, y, x);
      LessIsStrict(x, y, x);
      AsksButAcrossNull(fields[1..], ascending, a, b);
    }
  }

  // A document across a null stays so from every document on the way that is not.
  lemma {:induction false} NullStepStays(fields: seq<string>, ascending: bool, a: Doc, b: Doc, c: Doc)
    requires LexBefore(fields, ascending, a, b) && LexBefore(fields, ascending, b, c)
    requires NullStep(fields, a, c) && !NullStep(fields, a, b)
    ensures NullStep(fields, b, c)
    decreases |fields|
  {
    var x, y, z := Read(a, fields[0]), Read(b, fields[0]), Read(c, fields[0]);
    RankedIsStrict(x, y, x);
    RankedIsStrict(y, x, y);
    if x == y == z {
      NullStepStays(fields[1..], ascending, a, b, c);
    }
  }

  // Asked by tuple means: equal up to some field, and asked at that field.
  lemma {:induction false} LexAt(fields: seq<string>, ascending: bool, a: Doc, b: Doc)
    ensures LexAsks(fields, ascending, a, b) <==>
      exists i | 0 <= i < |fields| :: FirstDifference(fields, ascending, a, b, i)
    decreases |fields|
  {
    if fields != [] {
      LexAt(fields[1..], ascending, a, b);
      if Precedes(ascending, Read(a, fields[0]), Read(b, fields[0])) {
        assert FirstDifference(fields, ascending, a, b, 0);
      }
      if i :| 0 <= i < |fields[1..]| && FirstDifference(fields[1..], ascending, a, b, i)
            && Read(a, fields[0]) == Read(b, fields[0]) {
        forall j | 0 <= j < i + 1 ensures Read(a, fields[j]) == Read(b, fields[j]) {
          if j > 0 {
            assert fields[j] == fields[1..][j - 1];
          }
        }
        assert FirstDifference(fields, ascending, a, b, i + 1);
      }
      if i :| 0 < i < |fields| && FirstDifference(fields, ascending, a, b, i) {
        forall j | 0 <= j < i - 1 ensures Read(a, fields[1..][j]) == Read(b, fields[1..][j]) {
          assert fields[1..][j] == fields[j + 1];
        }
        assert FirstDifference(fields[1..], ascending, a, b, i - 1);
      }
    }
  }

  predicate FirstDifference(fields: seq<string>, ascending: bool, a: Doc, b: Doc, i: nat)
    requires i < |fields|
  {
    && Precedes(ascending, Read(a, fields[i]), Read(b, fields[i]))
    && forall j | 0 <= j < i :: Read(a, fields[j]) == Read(b, fields[j])
  }
}

module KeysetFilter {
  import opened Common
  import opened Queries
  import opened KeysetOrder

  // The position a cursor token carries: the values of the row it was made from. The
  // per-field values ride along only for two or more sort fields.
  datatype Cursor = Cursor(value: Value, id: Value, values: Option<map<string, Value>>)

  function PrimaryField(sort: Sort): string {
    if sort.fields == [] then "_id" else sort.fields[0]
  }

  function EncodeCursor(d: Doc, sort: Sort): Cursor {
    Cursor(Read(d, PrimaryField(sort)), Read(d, "_id"),
           if |sort.fields| > 1 then Some(map f | f in sort.fields :: Read(d, f)) else None)
  }

  // An entry of an object literal: a later key of the same name replaces an earlier one.
  function Put(q: Query, path: string, test: Test): Query {
    q.(fields := Without(q.fields, path) + [FieldTest(path, test)])
  }

  function Without(fields: seq<FieldTest>, path: string): seq<FieldTest> {
    if fields == [] then []
    else (if fields[0].path == path then [] else [fields[0]]) + Without(fields[1..], path)
  }

  function Range(sort: Sort, v: Value): Test {
    Ops([Compare(if sort.ascending then Gt else Lt, v)])
  }

  function ValueAt(c: Cursor, f: string): Value {
    if f == "_id" then c.id
    else if c.values.Some? && f in c.values.value then c.values.value[f]
    else c.value
  }

  // Equality on every field before the i-th, the range on the i-th.
  function Condition(sort: Sort, c: Cursor, i: nat): Query
    requires i < |AllFields(sort)|
  {
    var fs := AllFields(sort);
    EVERYTHING.(fields :=
      seq(i, j requires 0 <= j < i => FieldTest(fs[j], Is(ValueAt(c, fs[j]))))
      + [FieldTest(fs[i], Range(sort, ValueAt(c, fs[i])))])
  }

  // buildKeysetFilter: `$or` is spread over the caller's filters last, so it replaces theirs.
  function BuildKeysetFilter(base: Query, sort: Sort, c: Cursor): Query {
    var p := PrimaryField(sort);
    if |sort.fields| <= 1 && c.values.None? then
      if c.value == Null then
        if sort.ascending then
          base.(ors := [Put(Field(p, Is(Null)), "_id", Range(sort, c.id)), Field(p, Ops([NotEqual(Null)]))])
        else Put(Put(base, p, Is(Null)), "_id", Range(sort, c.id))
      else
        base.(ors := [Field(p, Range(sort, c.value)), Put(Field(p, Is(c.value)), "_id", Range(sort, c.id))])
    else
      base.(ors := seq(|sort.fields| + 1, i requires 0 <= i < |sort.fields| + 1 => Condition(sort, c, i)))
  }

  function QueryFor(base: Query, sort: Sort, after: Option<Cursor>): Query {
    if after.None? then base else BuildKeysetFilter(base, sort, after.value)
  }

  lemma RangeHolds(e: Engine, sort: Sort, v: Value, x: Value)
    ensures Passes(e, Range(sort, v), x) <==> Precedes(sort.ascending, v, x)
  {
    var ops := Range(sort, v).ops;
    assert Passes(e, Range(sort, v), x) <==> OpHolds(e, ops[0], x);
  }

  lemma ConditionMatches(e: Engine, sort: Sort, last: Doc, i: nat, d: Doc)
    requires ValidSort(sort) && i < |AllFields(sort)|
    requires |sort.fields| > 1
    ensures Matches(e, Condition(sort, EncodeCursor(last, sort), i), d)
      <==> FirstDifference(AllFields(sort), sort.ascending, last, d, i)
  {
    var fs, c := AllFields(sort), EncodeCursor(last, sort);
    var fields := Condition(sort, c, i).fields;
    assert forall j | 0 <= j <= i :: ValueAt(c, fs[j]) == Read(last, fs[j]);
    RangeHolds(e, sort, Read(last, fs[i]), Read(d, fs[i]));
    assert fields[i] == FieldTest(fs[i], Range(sort, Read(last, fs[i])));
    assert forall j | 0 <= j < i :: fields[j] == FieldTest(fs[j], Is(Read(last, fs[j])));
    assert FieldsPass(e, fields, d) <==>
      Passes(e, fields[i].test, Read(d, fs[i])) && forall j | 0 <= j < i :: Passes(e, fields[j].test, Read(d, fs[j]));
  }

  lemma OrsReplaced(e: Engine, base: Query, ors: seq<Query>, d: Doc)
    requires ors != []
    ensures Matches(e, base.(ors := ors), d)
      <==> Matches(e, base.(ors := []), d) && exists i | 0 <= i < |ors| :: Matches(e, ors[i], d)
  {
  }

  lemma FieldMatches(e: Engine, path: string, test: Test, d: Doc)
    ensures Matches(e, Field(path, test), d) <==> Passes(e, test, Read(d, path))
  {
    assert Field(path, test).fields[0] == FieldTest(path, test);
  }

  lemma TwoFieldsMatch(e: Engine, p: string, v: Value, test: Test, d: Doc)
    ensures Matches(e, Put(Field(p, Is(v)), "_id", test), d)
      <==> (p != "_id" ==> Read(d, p) == v) && Passes(e, test, Read(d, "_id"))
  {
    var q := Put(Field(p, Is(v)), "_id", test);
    var tests := [FieldTest(p, Is(v))];
    assert tests[1..] == [] && Without(tests[1..], "_id") == [];
    assert q.fields == (if p == "_id" then [] else tests) + [FieldTest("_id", test)];
    if p != "_id" {
      assert q.fields[0] == tests[0] && q.fields[1] == FieldTest("_id", test);
    } else {
      assert q.fields[0] == FieldTest("_id", test);
    }
  }

  // Sorting down by one field, behind a row without it: the rest has no such field either.
  predicate AmongNulls(sort: Sort, last: Doc) {
    |sort.fields| == 1 && !sort.ascending && Read(last, PrimaryField(sort)) == Null
  }

  // What the keyset filter keeps of the caller's.
  function Kept(base: Query, sort: Sort, last: Doc): Query {
    if AmongNulls(sort, last) then base.(fields := Without(Without(base.fields, PrimaryField(sort)), "_id"))
    else base.(ors := [])
  }

  // Rows behind the last one that the keyset filter does not ask for.
  predicate Lost(sort: Sort, last: Doc, d: Doc) {
    !(sort.ascending && |sort.fields| <= 1) && NullStep(AllFields(sort), last, d)
  }

  // Main result: the keyset filter asks for the rows after the one it was made from, except
  // across a null, among those that match what it keeps of the caller's filter.
  lemma KeysetFilterMeaning(e: Engine, base: Query, sort: Sort, last: Doc, d: Doc)
    requires ValidSort(sort) && Read(last, "_id") != Null
    ensures Matches(e, BuildKeysetFilter(base, sort, EncodeCursor(last, sort)), d)
      <==> Matches(e, Kept(base, sort, last), d) && Before(sort, last, d) && !Lost(sort, last, d)
  {
    var c, fs := EncodeCursor(last, sort), AllFields(sort);
    AsksButAcrossNull(fs, sort.ascending, last, d);
    if |sort.fields| > 1 {
      var ors := BuildKeysetFilter(base, sort, c).ors;
      LexAt(fs, sort.ascending, last, d);
      OrsReplaced(e, base, ors, d);
      forall i | 0 <= i < |fs|
        ensures Matches(e, ors[i], d) <==> FirstDifference(fs, sort.ascending, last, d, i)
      {
        ConditionMatches(e, sort, last, i, d);
      }
      SameWitness(e, ors, fs, sort.ascending, last, d);
    } else {
      BySingleField(sort, last, d);
      if Read(last, PrimaryField(sort)) != Null {
        SingleField(e, base, sort, last, d);
      } else if sort.ascending {
        SingleNullAscending(e, base, sort, last, d);
      } else {
        SingleNullDescending(e, base, sort, last, d);
      }
    }
  }

  lemma SameWitness(e: Engine, ors: seq<Query>, fs: seq<string>, ascending: bool, last: Doc, d: Doc)
    requires |ors| == |fs|
    requires forall i | 0 <= i < |fs| :: Matches(e, ors[i], d) <==> FirstDifference(fs, ascending, last, d, i)
    ensures (exists i | 0 <= i < |ors| :: Matches(e, ors[i], d))
      <==> exists i | 0 <= i < |fs| :: FirstDifference(fs, ascending, last, d, i)
  {
    if i :| 0 <= i < |ors| && Matches(e, ors[i], d) {
      assert FirstDifference(fs, ascending, last, d, i);
    }
  }

  lemma SingleField(e: Engine, base: Query, sort: Sort, last: Doc, d: Doc)
    requires |sort.fields| <= 1 && Read(last, PrimaryField(sort)) != Null
    ensures
      var p, keyset := PrimaryField(sort), BuildKeysetFilter(base, sort, EncodeCursor(last, sort));
      Matches(e, keyset, d) <==>
        (&& Matches(e, base.(ors := []), d)
         && (|| Precedes(sort.ascending, Read(last, p), Read(d, p))
             || (Read(last, p) == Read(d, p) && Precedes(sort.ascending, Read(last, "_id"), Read(d, "_id")))))
  {
    var c, p := EncodeCursor(last, sort), PrimaryField(sort);
    var a, b := Field(p, Range(sort, c.value)), Put(Field(p, Is(c.value)), "_id", Range(sort, c.id));
    OrsReplaced(e, base, [a, b], d);
    FieldMatches(e, p, Range(sort, c.value), d);
    TwoFieldsMatch(e, p, c.value, Range(sort, c.id), d);
    RangeHolds(e, sort, c.value, Read(d, p));
    RangeHolds(e, sort, c.id, Read(d, "_id"));
    assert [a, b][0] == a && [a, b][1] == b;
    LessIsStrict(c.id, c.id, c.id);
  }

  lemma NotNullHolds(e: Engine, x: Value)
    ensures Passes(e, Ops([NotEqual(Null)]), x) <==> x != Null
  {
    var ops := [NotEqual(Null)];
    assert Passes(e, Ops(ops), x) <==> OpHolds(e, ops[0], x);
  }

  lemma SingleNullAscending(e: Engine, base: Query, sort: Sort, last: Doc, d: Doc)
    requires |sort.fields| == 1 && sort.ascending && Read(last, PrimaryField(sort)) == Null
    requires PrimaryField(sort) != "_id"
    ensures
      var p := PrimaryField(sort);
      Matches(e, BuildKeysetFilter(base, sort, EncodeCursor(last, sort)), d)
      <==> Matches(e, base.(ors := []), d) && (Read(d, p) != Null || Less(Read(last, "_id"), Read(d, "_id")))
  {
    var c, p := EncodeCursor(last, sort), PrimaryField(sort);
    var a, b := Put(Field(p, Is(Null)), "_id", Range(sort, c.id)), Field(p, Ops([NotEqual(Null)]));
    OrsReplaced(e, base, [a, b], d);
    FieldMatches(e, p, Ops([NotEqual(Null)]), d);
    NotNullHolds(e, Read(d, p));
    TwoFieldsMatch(e, p, Null, Range(sort, c.id), d);
    RangeHolds(e, sort, c.id, Read(d, "_id"));
    assert [a, b][0] == a && [a, b][1] == b;
  }

  lemma {:induction false} WithoutAppends(fields: seq<FieldTest>, t: FieldTest, path: string)
    requires t.path != path
    ensures Without(fields + [t], path) == Without(fields, path) + [t]
  {
    if fields == [] {
      assert [t][1..] == [];
    } else {
      assert (fields + [t])[1..] == fields[1..] + [t];
      WithoutAppends(fields[1..], t, path);
    }
  }

  lemma AppendMatches(e: Engine, q: Query, path: string, test: Test, d: Doc)
    ensures Matches(e, q.(fields := q.fields + [FieldTest(path, test)]), d)
      <==> Matches(e, q, d) && Passes(e, test, Read(d, path))
  {
    var fields := q.fields + [FieldTest(path, test)];
    assert FieldsPass(e, fields, d) <==> FieldsPass(e, q.fields, d) && Passes(e, test, Read(d, path)) by {
      assert fields[|q.fields|] == FieldTest(path, test);
      assert forall i | 0 <= i < |q.fields| :: fields[i] == q.fields[i];
    }
  }

  lemma SingleNullDescending(e: Engine, base: Query, sort: Sort, last: Doc, d: Doc)
    requires AmongNulls(sort, last) && PrimaryField(sort) != "_id"
    ensures
      Matches(e, BuildKeysetFilter(base, sort, EncodeCursor(last, sort)), d)
      <==> (&& Matches(e, Kept(base, sort, last), d)
            && Read(d, PrimaryField(sort)) == Null && Less(Read(d, "_id"), Read(last, "_id")))
  {
    var c, p := EncodeCursor(last, sort), PrimaryField(sort);
    var t := FieldTest(p, Is(Null));
    var kept := Kept(base, sort, last);
    var withP := kept.(fields := kept.fields + [t]);
    WithoutAppends(Without(base.fields, p), t, "_id");
    assert BuildKeysetFilter(base, sort, c)
        == withP.(fields := withP.fields + [FieldTest("_id", Range(sort, c.id))]);
    AppendMatches(e, kept, p, Is(Null), d);
    AppendMatches(e, withP, "_id", Range(sort, c.id), d);
    RangeHolds(e, sort, c.id, Read(d, "_id"));
  }

  lemma LexByOne(f: string, ascending: bool, a: Doc, b: Doc)
    ensures LexBefore([f], ascending, a, b) <==> Sorted(ascending, Read(a, f), Read(b, f))
    ensures NullStep([f], a, b) <==> Read(a, f) != Read(b, f) && (Read(a, f) == Null || Read(b, f) == Null)
  {
    assert [f][1..] == [] && !LexBefore([], ascending, a, b) && !NullStep([], a, b);
  }

  lemma BySingleField(sort: Sort, a: Doc, b: Doc)
    requires |sort.fields| <= 1
    ensures Before(sort, a, b) <==>
      var p := PrimaryField(sort);
      || Sorted(sort.ascending, Read(a, p), Read(b, p))
      || (Read(a, p) == Read(b, p) && Sorted(sort.ascending, Read(a, "_id"), Read(b, "_id")))
    ensures NullStep(AllFields(sort), a, b) <==>
      var p := PrimaryField(sort);
      var f := if Read(a, p) == Read(b, p) then "_id" else p;
      Read(a, f) != Read(b, f) && (Read(a, f) == Null || Read(b, f) == Null)
  {
    var fs := AllFields(sort);
    LexByOne("_id", sort.ascending, a, b);
    if sort.fields == [] {
      assert fs == ["_id"];
      RankedIsStrict(Read(a, "_id"), Read(b, "_id"), Read(a, "_id"));
    } else {
      assert fs[1..] == ["_id"];
    }
  }

  // A row behind the last one that a later page is wrong about: it matches and is not asked
  // for, or is asked for and does not match.
  predicate Off(e: Engine, base: Query, sort: Sort, last: Doc, d: Doc) {
    && Before(sort, last, d)
    && if Lost(sort, last, d) then Matches(e, base, d)
       else Matches(e, Kept(base, sort, last), d) && !Matches(e, base, d)
  }

  lemma OffExactly(e: Engine, base: Query, sort: Sort, last: Doc, d: Doc)
    requires ValidSort(sort) && Read(last, "_id") != Null
    ensures
      var keyset := BuildKeysetFilter(base, sort, EncodeCursor(last, sort));
      (Matches(e, keyset, d) <==> Matches(e, base, d) && Before(sort, last, d)) <==> !Off(e, base, sort, last, d)
  {
    KeysetFilterMeaning(e, base, sort, last, d);
    KeptIsWeaker(e, base, sort, last, d);
  }

  lemma {:induction false} WithoutIsWeaker(e: Engine, fields: seq<FieldTest>, path: string, d: Doc)
    requires FieldsPass(e, fields, d)
    ensures FieldsPass(e, Without(fields, path), d)
  {
    if fields != [] {
      assert forall i | 0 <= i < |fields[1..]| :: fields[1..][i] == fields[i + 1];
      WithoutIsWeaker(e, fields[1..], path, d);
    }
  }

  lemma KeptIsWeaker(e: Engine, base: Query, sort: Sort, last: Doc, d: Doc)
    ensures Matches(e, base, d) ==> Matches(e, Kept(base, sort, last), d)
  {
    if AmongNulls(sort, last) && Matches(e, base, d) {
      WithoutIsWeaker(e, base.fields, PrimaryField(sort), d);
      WithoutIsWeaker(e, Without(base.fields, PrimaryField(sort)), "_id", d);
    }
  }

  // Behind a row with non-null sort values the caller's own `$or` is not consulted at all: of
  // the rows not lost, the page is wrong about those that fail the `$or` and nothing else.
  lemma CallerOrIsDropped(e: Engine, base: Query, sort: Sort, last: Doc, d: Doc)
    requires ValidSort(sort)
    requires forall f | f in AllFields(sort) :: Read(last, f) != Null
    ensures Off(e, base, sort, last, d) <==>
      (&& Before(sort, last, d)
       && if Lost(sort, last, d) then Matches(e, base, d)
          else && Matches(e, base.(ors := []), d)
               && base.ors != [] && forall i | 0 <= i < |base.ors| :: !Matches(e, base.ors[i], d))
  {
    assert PrimaryField(sort) in AllFields(sort);
    if base.ors == [] {
      assert base.(ors := []) == base;
    } else {
      OrsReplaced(e, base, base.ors, d);
      assert base.(ors := base.ors) == base;
    }
  }

  lemma {:induction false} NoNullNoStep(fields: seq<string>, a: Doc, b: Doc)
    requires forall f | f in fields :: Read(a, f) != Null && Read(b, f) != Null
    ensures !NullStep(fields, a, b)
    decreases |fields|
  {
    if fields != [] {
      NoNullNoStep(fields[1..], a, b);
    }
  }

  lemma OrDroppedOnSecondPage(e: Engine)
    ensures
      var base := EVERYTHING.(ors := [Field("status", Is(Str("open")))]);
      var last := map["_id" := Oid(1), "status" := Str("open")];
      var closed := map["_id" := Oid(2), "status" := Str("closed")];
      var byId := Sort([], true);
      Matches(e, BuildKeysetFilter(base, byId, EncodeCursor(last, byId)), closed) && !Matches(e, base, closed)
  {
    var open := Field("status", Is(Str("open")));
    var last := map["_id" := Oid(1), "status" := Str("open")];
    var closed := map["_id" := Oid(2), "status" := Str("closed")];
    var byId := Sort([], true);
    FieldMatches(e, "status", Is(Str("open")), closed);
    assert [open][0] == open && Str("open").s != Str("closed").s;
    assert AllFields(byId) == ["_id"];
    LexByOne("_id", true, last, closed);
    KeysetFilterMeaning(e, EVERYTHING.(ors := [open]), byId, last, closed);
    OrsReplaced(e, EVERYTHING, [open], closed);
  }
}

// The keyset purge port: rows matching a filter are written chunk by chunk in _id order.

// Finite sets of ids in ascending order.

module AscendingIds {
  lemma {:induction false} HasLeast(ids: set<nat>)
    requires ids != {}
    ensures exists m :: IsLeast(ids, m)
    decreases |ids|
  {
    var x :| x in ids;
    var rest := ids - {x};
    if rest == {} {
      assert ids == {x} && IsLeast(ids, x);
    } else {
      HasLeast(rest);
      var n :| IsLeast(rest, n);
      assert forall y | y in ids :: y == x || y in rest;
      assert IsLeast(ids, n) || IsLeast(ids, x);
    }
  }

  predicate IsLeast(ids: set<nat>, m: nat) {
    m in ids && forall x | x in ids :: m <= x
  }

  function Least(ids: set<nat>): (m: nat)
    requires ids != {}
    ensures IsLeast(ids, m)
  {
    HasLeast(ids);
    var m :| m in ids && IsLeast(ids, m);
    m
  }

  function Ascending(ids: set<nat>): seq<nat>
    decreases |ids|
  {
    if ids == {} then [] else [Least(ids)] + Ascending(ids - {Least(ids)})
  }

  lemma {:induction false} AscendingSorts(ids: set<nat>)
    ensures forall k: nat :: k in Ascending(ids) <==> k in ids
    ensures forall i, j | 0 <= i < j < |Ascending(ids)| :: Ascending(ids)[i] < Ascending(ids)[j]
    decreases |ids|
  {
    if ids != {} {
      var m := Least(ids);
      AscendingSorts(ids - {m});
      var rest := Ascending(ids - {m});
      assert forall i | 0 <= i < |rest| :: rest[i] in ids - {m};
    }
  }
}

module Purge {
  import opened AscendingIds
  import opened Common
  import opened Queries
  import opened KeysetFilter

  type Rows = map<nat, Doc>

  // Rows are stored under their own _id.
  predicate Identified(rows: Rows) {
    forall k | k in rows :: Read(rows[k], "_id") == Oid(k)
  }

  datatype Replacer = Static(v: Value) | Computed(f: Doc -> Value)

  datatype Strategy =
    | Hard
    | Soft(deletedField: Option<string>, deletedAtField: Option<string>)
    | Anonymize(fields: map<string, Replacer>)

  // ---- What one write does to one row --------------------------------------------------

  function NameOr(name: Option<string>, default: string): string {
    if name.Some? then name.value else default
  }

  function Replacement(r: Replacer, d: Doc): Value {
    match r
    case Static(v) => v
    case Computed(f) => f(d)
  }

  // The $set computed for a row.
  function Patch(s: Strategy, d: Doc, now: int): Doc {
    match s
    case Hard => map[]
    case Soft(deleted, at) => map[NameOr(deleted, "deleted") := Bool(true)][NameOr(at, "deletedAt") := Date(now)]
    case Anonymize(fields) => map f | f in fields :: Replacement(fields[f], d)
  }

  // The server refuses to change a row's _id.
  predicate KeepsId(s: Strategy) {
    match s
    case Hard => true
    case Soft(deleted, at) => NameOr(deleted, "deleted") != "_id" && NameOr(at, "deletedAt") != "_id"
    case Anonymize(fields) => "_id" !in fields
  }

  predicate IsFunctional(s: Strategy) {
    s.Anonymize? && exists f | f in s.fields :: s.fields[f].Computed?
  }

  // Every stamped row written once, at its stamp's time; all others untouched.
  function Apply(s: Strategy, rows: Rows, stamps: map<nat, int>): Rows {
    map k | k in rows && !(s.Hard? && k in stamps) ::
      if k in stamps then rows[k] + Patch(s, rows[k], stamps[k]) else rows[k]
  }

  lemma ApplyNothing(s: Strategy, rows: Rows, stamps: map<nat, int>)
    requires stamps == map[]
    ensures Apply(s, rows, stamps) == rows
  {
  }

  lemma ApplyKeepsIds(s: Strategy, rows: Rows, stamps: map<nat, int>)
    requires Identified(rows) && KeepsId(s)
    ensures Identified(Apply(s, rows, stamps))
  {
  }

  // ---- Queries -------------------------------------------------------------------------

  // keysetFilter: the spread puts the cursor's _id test over the caller's.
  function KeysetQuery(base: Query, cursor: Option<nat>): Query {
    if cursor.None? then base else Put(base, "_id", Ops([Compare(Gt, Oid(cursor.value))]))
  }

  // narrowToIds.
  function NarrowToIds(base: Query, ids: seq<nat>): Query {
    Put(base, "_id", Ops([In(seq(|ids|, i requires 0 <= i < |ids| => Oid(ids[i])))]))
  }

  function Matching(e: Engine, rows: Rows, q: Query): set<nat> {
    set k | k in rows && Matches(e, q, rows[k])
  }

  // The caller's filter without its top-level _id entry.
  function Anywhere(base: Query): Query {
    base.(fields := Without(base.fields, "_id"))
  }

  predicate NoIdTest(base: Query) {
    forall i | 0 <= i < |base.fields| :: base.fields[i].path != "_id"
  }

  lemma {:induction false} WithoutNothing(fields: seq<FieldTest>, path: string)
    requires forall i | 0 <= i < |fields| :: fields[i].path != path
    ensures Without(fields, path) == fields
  {
    if fields != [] {
      WithoutNothing(fields[1..], path);
    }
  }

  lemma PutMatches(e: Engine, base: Query, test: Test, d: Doc)
    ensures Matches(e, Put(base, "_id", test), d)
      <==> Matches(e, Anywhere(base), d) && Passes(e, test, Read(d, "_id"))
  {
    var kept := Without(base.fields, "_id");
    var fields := kept + [FieldTest("_id", test)];
    assert FieldsPass(e, fields, d) <==> FieldsPass(e, kept, d) && Passes(e, test, Read(d, "_id")) by {
      assert fields[|kept|] == FieldTest("_id", test);
      assert forall i | 0 <= i < |kept| :: fields[i] == kept[i];
    }
  }

  lemma PastCursor(e: Engine, base: Query, c: nat, k: nat, d: Doc)
    requires Read(d, "_id") == Oid(k)
    ensures Matches(e, KeysetQuery(base, Some(c)), d) <==> Matches(e, Anywhere(base), d) && k > c
  {
    var ops := [Compare(Gt, Oid(c))];
    PutMatches(e, base, Ops(ops), d);
    assert Passes(e, Ops(ops), Oid(k)) <==> OpHolds(e, ops[0], Oid(k));
  }

  lemma AmongIds(e: Engine, base: Query, ids: seq<nat>, k: nat, d: Doc)
    requires Read(d, "_id") == Oid(k)
    ensures Matches(e, NarrowToIds(base, ids), d) <==> Matches(e, Anywhere(base), d) && k in ids
  {
    var vs := seq(|ids|, i requires 0 <= i < |ids| => Oid(ids[i]));
    var ops := [In(vs)];
    PutMatches(e, base, Ops(ops), d);
    assert Passes(e, Ops(ops), Oid(k)) <==> OpHolds(e, ops[0], Oid(k));
    if k in ids {
      var i :| 0 <= i < |ids| && ids[i] == k;
      assert vs[i] == Oid(k);
    }
  }

  lemma SameWithoutIdTest(base: Query)
    requires NoIdTest(base)
    ensures Anywhere(base) == base
  {
    WithoutNothing(base.fields, "_id");
  }

  // ---- The chunk -----------------------------------------------------------------------

  // limit(n); zero asks for all.
  function Limited(s: seq<nat>, limit: nat): seq<nat> {
    if limit == 0 || |s| <= limit then s else s[..limit]
  }

  // The rows of a cohort past the cursor.
  function Rest(rows: Rows, cohort: Doc -> bool, cursor: Option<nat>): set<nat> {
    set k | k in rows && cohort(rows[k]) && (cursor.Some? ==> k > cursor.value)
  }

  function Chunk(rows: Rows, cohort: Doc -> bool, cursor: Option<nat>, limit: nat): seq<nat> {
    Limited(Ascending(Rest(rows, cohort, cursor)), limit)
  }

  function Stamped(ids: seq<nat>, now: int): map<nat, int> {
    map k | k in ids :: now
  }

  lemma ChunkIsInitial(rows: Rows, cohort: Doc -> bool, cursor: Option<nat>, limit: nat)
    ensures
      var chunk, rest := Chunk(rows, cohort, cursor, limit), Rest(rows, cohort, cursor);
      && (chunk == [] <==> rest == {})
      && (forall k | k in chunk :: k in rest)
      && (forall k | k in rest && chunk != [] :: k in chunk <==> k <= chunk[|chunk| - 1])
      && (forall i, j | 0 <= i < j < |chunk| :: chunk[i] < chunk[j])
  {
    var sorted := Ascending(Rest(rows, cohort, cursor));
    AscendingSorts(Rest(rows, cohort, cursor));
    var chunk := Limited(sorted, limit);
    assert chunk == sorted[..|chunk|];
    forall k | k in sorted && chunk != [] ensures k in chunk <==> k <= chunk[|chunk| - 1] {
      var i :| 0 <= i < |sorted| && sorted[i] == k;
      if i < |chunk| {
        assert chunk[i] == k;
      }
    }
    if sorted != [] {
      assert sorted[0] in sorted;
    }
  }

  lemma {:induction false} DistinctCount(s: seq<nat>, ids: set<nat>)
    requires forall i, j | 0 <= i < j < |s| :: s[i] < s[j]
    requires forall k :: k in s <==> k in ids
    ensures |s| == |ids|
    decreases |s|
  {
    if s == [] {
      forall k ensures k !in ids {
        assert k in s <==> k in ids;
      }
      assert ids == {};
    } else {
      assert s[0] in s && s[0] !in s[1..];
      assert forall k :: k in s[1..] <==> k in s && k != s[0];
      DistinctCount(s[1..], ids - {s[0]});
    }
  }

  // What is left after a chunk is what was left before it without the chunk, whether or not
  // the rows it wrote still match.
  lemma ChunkAdvances(rows: Rows, cohort: Doc -> bool, cursor: Option<nat>, limit: nat, s: Strategy, now: int)
    requires Chunk(rows, cohort, cursor, limit) != []
    ensures
      var chunk := Chunk(rows, cohort, cursor, limit);
      Rest(Apply(s, rows, Stamped(chunk, now)), cohort, Some(chunk[|chunk| - 1]))
        == Rest(rows, cohort, cursor) - Stamped(chunk, now).Keys
  {
    ChunkIsInitial(rows, cohort, cursor, limit);
    var chunk := Chunk(rows, cohort, cursor, limit);
    assert chunk[|chunk| - 1] in chunk;
  }

  // ---- What the queries select ---------------------------------------------------------

  // find(keysetFilter(base, cursor)).sort({ _id: 1 }).limit(limit)
  function Selected(e: Engine, rows: Rows, base: Query, cursor: Option<nat>, limit: nat): seq<nat> {
    Limited(Ascending(Matching(e, rows, KeysetQuery(base, cursor))), limit)
  }

  ghost predicate Selects(e: Engine, q: Query, cohort: Doc -> bool) {
    forall d {:trigger Matches(e, q, d)} :: cohort(d) <==> Matches(e, q, d)
  }

  lemma CohortExists(e: Engine, q: Query) returns (cohort: Doc -> bool)
    ensures Selects(e, q, cohort)
  {
    cohort := d => Matches(e, q, d);
  }

  function FilterAt(base: Query, cursor: Option<nat>): Query {
    if cursor.None? then base else Anywhere(base)
  }

  // A chunk is taken from the rows past the cursor that match the caller's filter without its
  // top-level _id entry; the first one, before there is a cursor, heeds that entry.
  lemma SelectedIsChunk(e: Engine, rows: Rows, base: Query, cursor: Option<nat>, limit: nat, cohort: Doc -> bool)
    requires Identified(rows) && Selects(e, FilterAt(base, cursor), cohort)
    ensures Selected(e, rows, base, cursor, limit) == Chunk(rows, cohort, cursor, limit)
  {
    forall k | k in rows
      ensures Matches(e, KeysetQuery(base, cursor), rows[k])
        <==> cohort(rows[k]) && (cursor.Some? ==> k > cursor.value)
    {
      if cursor.Some? {
        PastCursor(e, base, cursor.value, k, rows[k]);
      }
    }
    assert Matching(e, rows, KeysetQuery(base, cursor)) == Rest(rows, cohort, cursor);
  }

  // ---- The writes ----------------------------------------------------------------------

  // A driver call that throws may have written part of its rows: the ones in the set.
  type Fault = Option<set<nat>>

  predicate Lands(fault: Fault, k: nat) {
    fault.None? || k in fault.value
  }

  // updateMany and deleteMany: every row matching now, with one shared $set.
  function WriteMany(e: Engine, rows: Rows, q: Query, s: Strategy, now: int, fault: Fault): Rows {
    map k | k in rows && !(s.Hard? && Matches(e, q, rows[k]) && Lands(fault, k)) ::
      if Matches(e, q, rows[k]) && Lands(fault, k) then rows[k] + Patch(s, rows[k], now) else rows[k]
  }

  datatype UpdateOne = UpdateOne(id: nat, set_: Doc)

  // Unordered: an operation that fails does not stop the others.
  function BulkWrite(rows: Rows, operations: seq<UpdateOne>, fault: Fault): Rows {
    if operations == [] then rows
    else
      var op := operations[0];
      BulkWrite(if op.id in rows && Lands(fault, op.id) then rows[op.id := rows[op.id] + op.set_] else rows,
                operations[1..], fault)
  }

  // The documents a find returns for these ids.
  function Fetched(rows: Rows, ids: seq<nat>): (docs: seq<Doc>)
    ensures |docs| == |ids|
  {
    seq(|ids|, i requires 0 <= i < |ids| => if ids[i] in rows then rows[ids[i]] else map[])
  }

  function Operations(s: Strategy, ids: seq<nat>, docs: seq<Doc>, now: int): seq<UpdateOne>
    requires |docs| == |ids|
  {
    seq(|ids|, i requires 0 <= i < |ids| => UpdateOne(ids[i], Patch(s, docs[i], now)))
  }

  function Landed(ids: seq<nat>, now: int, fault: Fault): map<nat, int> {
    map k | k in ids && Lands(fault, k) :: now
  }

  function LandedIn(rows: Rows, cohort: Doc -> bool, ids: seq<nat>, now: int, fault: Fault): map<nat, int> {
    map k | k in ids && k in rows && cohort(rows[k]) && Lands(fault, k) :: now
  }

  lemma AllInCohort(rows: Rows, cohort: Doc -> bool, ids: seq<nat>, now: int, fault: Fault)
    requires forall k | k in ids :: k in rows && cohort(rows[k])
    ensures LandedIn(rows, cohort, ids, now, fault) == Landed(ids, now, fault)
  {
  }

  lemma WriteManyReaches(e: Engine, rows: Rows, q: Query, s: Strategy, now: int, fault: Fault, stamps: map<nat, int>)
    requires forall k | k in rows :: k in stamps <==> Matches(e, q, rows[k]) && Lands(fault, k)
    requires forall k | k in stamps :: stamps[k] == now
    ensures WriteMany(e, rows, q, s, now, fault) == Apply(s, rows, stamps)
  {
  }

  // The narrowed write reaches, among the rows it names, those in the caller's cohort.
  lemma NarrowedWrite(e: Engine, rows: Rows, base: Query, ids: seq<nat>, s: Strategy, now: int, fault: Fault,
                      cohort: Doc -> bool)
    requires Identified(rows) && Selects(e, Anywhere(base), cohort)
    ensures WriteMany(e, rows, NarrowToIds(base, ids), s, now, fault)
      == Apply(s, rows, LandedIn(rows, cohort, ids, now, fault))
  {
    forall k | k in rows ensures Matches(e, NarrowToIds(base, ids), rows[k]) <==> k in ids && cohort(rows[k]) {
      AmongIds(e, base, ids, k, rows[k]);
    }
    WriteManyReaches(e, rows, NarrowToIds(base, ids), s, now, fault, LandedIn(rows, cohort, ids, now, fault));
  }

  lemma {:induction false} BulkWriteReaches(rows: Rows, operations: seq<UpdateOne>, fault: Fault)
    requires forall i, j | 0 <= i < j < |operations| :: operations[i].id < operations[j].id
    ensures BulkWrite(rows, operations, fault).Keys == rows.Keys
    ensures forall i | 0 <= i < |operations| && operations[i].id in rows && Lands(fault, operations[i].id) ::
      BulkWrite(rows, operations, fault)[operations[i].id] == rows[operations[i].id] + operations[i].set_
    ensures forall k | k in rows && forall i | 0 <= i < |operations| && Lands(fault, operations[i].id) ::
                         operations[i].id != k ::
      BulkWrite(rows, operations, fault)[k] == rows[k]
    decreases |operations|
  {
    if operations != [] {
      var op, rest := operations[0], operations[1..];
      var next := if op.id in rows && Lands(fault, op.id) then rows[op.id := rows[op.id] + op.set_] else rows;
      BulkWriteReaches(next, rest, fault);
      assert forall i | 0 <= i < |rest| :: rest[i] == operations[i + 1] && rest[i].id != op.id;
    }
  }

  predicate AscendingIn(rows: Rows, ids: seq<nat>) {
    (forall k | k in ids :: k in rows) && forall i, j | 0 <= i < j < |ids| :: ids[i] < ids[j]
  }

  lemma FunctionalWrite(s: Strategy, rows: Rows, ids: seq<nat>, now: int, fault: Fault)
    requires !s.Hard? && AscendingIn(rows, ids)
    ensures BulkWrite(rows, Operations(s, ids, Fetched(rows, ids), now), fault)
      == Apply(s, rows, Landed(ids, now, fault))
  {
    var operations := Operations(s, ids, Fetched(rows, ids), now);
    assert forall i | 0 <= i < |ids| :: operations[i].id == ids[i] && ids[i] in ids;
    assert forall i | 0 <= i < |ids| :: operations[i].set_ == Patch(s, rows[ids[i]], now);
    FunctionalKeys(s, rows, ids, operations, now, fault);
    forall k | k in rows ensures BulkWrite(rows, operations, fault)[k] == Apply(s, rows, Landed(ids, now, fault))[k] {
      FunctionalAt(s, rows, ids, operations, now, fault, k);
    }
  }

  lemma FunctionalKeys(s: Strategy, rows: Rows, ids: seq<nat>, operations: seq<UpdateOne>, now: int, fault: Fault)
    requires !s.Hard?
    requires forall i | 0 <= i < |operations| :: operations[i].id in rows
    requires forall i, j | 0 <= i < j < |operations| :: operations[i].id < operations[j].id
    ensures BulkWrite(rows, operations, fault).Keys == Apply(s, rows, Landed(ids, now, fault)).Keys == rows.Keys
  {
    BulkWriteReaches(rows, operations, fault);
  }

  lemma FunctionalAt(s: Strategy, rows: Rows, ids: seq<nat>, operations: seq<UpdateOne>, now: int, fault: Fault, k: nat)
    requires !s.Hard? && k in rows
    requires |operations| == |ids| && forall i | 0 <= i < |ids| :: operations[i].id == ids[i] && ids[i] in rows
    requires forall i | 0 <= i < |ids| :: operations[i].set_ == Patch(s, rows[ids[i]], now)
    requires forall i, j | 0 <= i < j < |operations| :: operations[i].id < operations[j].id
    ensures k in BulkWrite(rows, operations, fault)
    ensures BulkWrite(rows, operations, fault)[k] == Apply(s, rows, Landed(ids, now, fault))[k]
  {
    BulkWriteReaches(rows, operations, fault);
    if k in ids && Lands(fault, k) {
      var i :| 0 <= i < |ids| && ids[i] == k;
      assert BulkWrite(rows, operations, fault)[operations[i].id] == rows[k] + operations[i].set_;
    } else {
      assert forall i | 0 <= i < |operations| && Lands(fault, operations[i].id) :: operations[i].id != k;
    }
  }

  lemma SelectedAscends(e: Engine, rows: Rows, base: Query, cursor: Option<nat>, limit: nat)
    requires Identified(rows)
    ensures AscendingIn(rows, Selected(e, rows, base, cursor, limit))
  {
    var cohort := CohortExists(e, FilterAt(base, cursor));
    SelectedIsChunk(e, rows, base, cursor, limit, cohort);
    ChunkIsInitial(rows, cohort, cursor, limit);
  }

  // Right after the select, the narrowed write reaches exactly the selected rows.
  lemma NarrowedToSelected(e: Engine, rows: Rows, base: Query, cursor: Option<nat>, limit: nat, s: Strategy, now: int,
                           fault: Fault)
    requires Identified(rows)
    ensures
      var ids := Selected(e, rows, base, cursor, limit);
      WriteMany(e, rows, NarrowToIds(base, ids), s, now, fault) == Apply(s, rows, Landed(ids, now, fault))
  {
    var cohort := CohortExists(e, Anywhere(base));
    var ids := Selected(e, rows, base, cursor, limit);
    SelectedInCohort(e, rows, base, cursor, limit, cohort);
    NarrowedWrite(e, rows, base, ids, s, now, fault, cohort);
    AllInCohort(rows, cohort, ids, now, fault);
  }

  // So do the per-row updates computed from the selected documents.
  lemma FunctionalOnSelected(rows: Rows, s: Strategy, now: int, fault: Fault, ids: seq<nat>, after: Rows)
    requires after == BulkWrite(rows, Operations(s, ids, Fetched(rows, ids), now), fault)
    requires !s.Hard? && AscendingIn(rows, ids)
    ensures after == AfterChunk(s, rows, ids, now, fault)
  {
    FunctionalWrite(s, rows, ids, now, fault);
    if ids == [] {
      ApplyNothing(s, rows, Landed(ids, now, fault));
    }
  }

  lemma SelectedInCohort(e: Engine, rows: Rows, base: Query, cursor: Option<nat>, limit: nat, cohort: Doc -> bool)
    requires Identified(rows) && Selects(e, Anywhere(base), cohort)
    ensures forall k | k in Selected(e, rows, base, cursor, limit) :: k in rows && cohort(rows[k])
  {
    var now := CohortExists(e, FilterAt(base, cursor));
    SelectedIsChunk(e, rows, base, cursor, limit, now);
    ChunkIsInitial(rows, now, cursor, limit);
    forall k | k in rows && now(rows[k]) ensures cohort(rows[k]) {
      assert Matches(e, FilterAt(base, cursor), rows[k]);
      WithoutSplits(e, base.fields, rows[k]);
      assert Matches(e, Anywhere(base), rows[k]);
    }
  }

  // ---- Where the port leaves the caller's cohort ----------------------------------------

  predicate IdTestsPass(e: Engine, fields: seq<FieldTest>, d: Doc) {
    forall i | 0 <= i < |fields| && fields[i].path == "_id" :: Passes(e, fields[i].test, Read(d, "_id"))
  }

  lemma {:induction false} WithoutSplits(e: Engine, fields: seq<FieldTest>, d: Doc)
    ensures FieldsPass(e, fields, d) <==> FieldsPass(e, Without(fields, "_id"), d) && IdTestsPass(e, fields, d)
  {
    if fields != [] {
      var t, rest := fields[0], fields[1..];
      WithoutSplits(e, rest, d);
      FieldsCons(e, t, rest, d);
      IdTestsCons(e, t, rest, d);
      FieldsCons(e, t, Without(rest, "_id"), d);
      assert fields == [t] + rest;
      assert Without(fields, "_id") == if t.path == "_id" then Without(rest, "_id") else [t] + Without(rest, "_id");
    }
  }

  lemma FieldsCons(e: Engine, t: FieldTest, rest: seq<FieldTest>, d: Doc)
    ensures FieldsPass(e, [t] + rest, d) <==> Passes(e, t.test, Read(d, t.path)) && FieldsPass(e, rest, d)
  {
    var all := [t] + rest;
    assert all[0] == t && forall i | 0 <= i < |rest| :: all[i + 1] == rest[i];
  }

  lemma IdTestsCons(e: Engine, t: FieldTest, rest: seq<FieldTest>, d: Doc)
    ensures IdTestsPass(e, [t] + rest, d)
      <==> (t.path == "_id" ==> Passes(e, t.test, Read(d, t.path))) && IdTestsPass(e, rest, d)
  {
    var all := [t] + rest;
    assert all[0] == t && forall i | 0 <= i < |rest| :: all[i + 1] == rest[i];
  }

  // Past the first chunk a row is selected against the caller's filter exactly when only the
  // filter's own top-level _id entry would have kept it out.
  lemma IdTestIsDropped(e: Engine, base: Query, c: nat, k: nat, d: Doc)
    requires Read(d, "_id") == Oid(k)
    ensures (Matches(e, KeysetQuery(base, Some(c)), d) <==> Matches(e, base, d) && k > c)
      <==> !(Matches(e, Anywhere(base), d) && k > c && !IdTestsPass(e, base.fields, d))
  {
    PastCursor(e, base, c, k, d);
    WithoutSplits(e, base.fields, d);
  }

  // A purge of { _id: { $in: [1] } }: once row 1 is gone, the next chunk is row 2.
  lemma NextChunkLeavesCohort(e: Engine, limit: nat)
    ensures
      var base := Field("_id", Ops([In([Oid(1)])]));
      var rows: Rows := map[2 := map["_id" := Oid(2)]];
      Selected(e, rows, base, Some(1), limit) == [2] && !Matches(e, base, rows[2])
  {
    var ops := [In([Oid(1)])];
    var base := Field("_id", Ops(ops));
    var row: Doc := map["_id" := Oid(2)];
    var rows: Rows := map[2 := row];
    FieldMatches(e, "_id", Ops(ops), row);
    assert !OpHolds(e, ops[0], Oid(2));
    var cohort := CohortExists(e, Anywhere(base));
    assert Without(base.fields, "_id") == [] by {
      assert base.fields[1..] == [];
    }
    assert Anywhere(base) == EVERYTHING;
    assert Matches(e, Anywhere(base), row);
    SelectedIsChunk(e, rows, base, Some(1), limit, cohort);
    assert Rest(rows, cohort, Some(1)) == {2};
    assert Ascending({2}) == [2] by {
      assert Least({2}) == 2 && {2} - {2} == {};
    }
  }

  const SEEN: Doc := map["_id" := Oid(1), "tenant" := Num(1), "name" := Str("")]
  const MOVED: Doc := SEEN["tenant" := Num(2)]
  const TENANT_ONE := Field("tenant", Is(Num(1)))

  // A row that left the cohort between the select and the write: the narrowed write skips it,
  // the per-row updates do not.
  lemma FunctionalWriteLeavesCohort(e: Engine, now: int, masked: Doc -> Value)
    requires forall d :: masked(d) == Str("x")
    ensures
      var shared, perRow := Anonymize(map["name" := Static(Str("x"))]), Anonymize(map["name" := Computed(masked)]);
      && !Matches(e, TENANT_ONE, MOVED)
      && WriteMany(e, map[1 := MOVED], NarrowToIds(TENANT_ONE, [1]), shared, now, None) == map[1 := MOVED]
      && BulkWrite(map[1 := MOVED], Operations(perRow, [1], [SEEN], now), None) == map[1 := MOVED["name" := Str("x")]]
  {
    StaticWriteSkips(e, Anonymize(map["name" := Static(Str("x"))]), now);
    var patch := Patch(Anonymize(map["name" := Computed(masked)]), SEEN, now);
    assert patch == map["name" := Str("x")];
    assert MOVED + patch == MOVED["name" := Str("x")];
    SingleUpdate(map[1 := MOVED], 1, patch);
  }

  // The per-row updates, computed from the rows as they were seen, leave every row outside the
  // cohort as it is exactly when they change nothing in those they reach there.
  lemma FunctionalWriteStays(s: Strategy, rows: Rows, ids: seq<nat>, seen: seq<Doc>, now: int, fault: Fault,
                             cohort: Doc -> bool)
    requires |seen| == |ids| && forall i, j | 0 <= i < j < |ids| :: ids[i] < ids[j]
    ensures
      var after := BulkWrite(rows, Operations(s, ids, seen, now), fault);
      && after.Keys == rows.Keys
      && ((forall k | k in rows && !cohort(rows[k]) :: after[k] == rows[k]) <==>
          forall i | 0 <= i < |ids| && ids[i] in rows && !cohort(rows[ids[i]]) && Lands(fault, ids[i]) ::
            rows[ids[i]] + Patch(s, seen[i], now) == rows[ids[i]])
  {
    var operations := Operations(s, ids, seen, now);
    var after := BulkWrite(rows, operations, fault);
    BulkWriteReaches(rows, operations, fault);
    forall i | 0 <= i < |ids| && ids[i] in rows && Lands(fault, ids[i])
      ensures after[ids[i]] == rows[ids[i]] + Patch(s, seen[i], now)
    {
      assert operations[i] == UpdateOne(ids[i], Patch(s, seen[i], now));
    }
    forall k | k in rows && forall i | 0 <= i < |ids| && Lands(fault, ids[i]) :: ids[i] != k
      ensures after[k] == rows[k]
    {
      assert forall i | 0 <= i < |operations| :: operations[i].id == ids[i];
    }
  }

  lemma StaticWriteSkips(e: Engine, s: Strategy, now: int)
    ensures !Matches(e, TENANT_ONE, MOVED)
    ensures WriteMany(e, map[1 := MOVED], NarrowToIds(TENANT_ONE, [1]), s, now, None) == map[1 := MOVED]
  {
    FieldMatches(e, "tenant", Is(Num(1)), MOVED);
    var cohort := CohortExists(e, TENANT_ONE);
    SameWithoutIdTest(TENANT_ONE);
    NarrowedWrite(e, map[1 := MOVED], TENANT_ONE, [1], s, now, None, cohort);
    ApplyNothing(s, map[1 := MOVED], LandedIn(map[1 := MOVED], cohort, [1], now, None));
  }

  lemma SingleUpdate(rows: Rows, k: nat, patch: Doc)
    requires k in rows
    ensures BulkWrite(rows, [UpdateOne(k, patch)], None) == rows[k := rows[k] + patch]
  {
    assert [UpdateOne(k, patch)][1..] == [];
  }

  // ---- A run ---------------------------------------------------------------------------

  // The times each row was written, in order.
  type Log = map<nat, seq<int>>

  function Times(log: Log, k: nat): seq<int> {
    if k in log then log[k] else []
  }

  function Logged(log: Log, stamps: map<nat, int>): Log {
    map k | k in log.Keys + stamps.Keys :: Times(log, k) + if k in stamps then [stamps[k]] else []
  }

  function Rewritten(s: Strategy, d: Doc, times: seq<int>): Doc {
    if times == [] then d
    else
      var before := Rewritten(s, d, times[..|times| - 1]);
      before + Patch(s, before, times[|times| - 1])
  }

  // Every logged row written at each of its times, all others untouched.
  function ApplyLog(s: Strategy, start: Rows, log: Log): Rows {
    map k | k in start && !(s.Hard? && k in log) :: Rewritten(s, start[k], Times(log, k))
  }

  lemma ApplyNext(s: Strategy, start: Rows, log: Log, stamps: map<nat, int>)
    ensures Apply(s, ApplyLog(s, start, log), stamps) == ApplyLog(s, start, Logged(log, stamps))
  {
    var before, next := ApplyLog(s, start, log), Logged(log, stamps);
    SameKeys(s, start, log, stamps);
    forall k | k in Apply(s, before, stamps) ensures Apply(s, before, stamps)[k] == ApplyLog(s, start, next)[k] {
      NextRow(s, start, log, stamps, k);
    }
  }

  lemma SameKeys(s: Strategy, start: Rows, log: Log, stamps: map<nat, int>)
    ensures Apply(s, ApplyLog(s, start, log), stamps).Keys == ApplyLog(s, start, Logged(log, stamps)).Keys
  {
  }

  lemma NextRow(s: Strategy, start: Rows, log: Log, stamps: map<nat, int>, k: nat)
    requires k in Apply(s, ApplyLog(s, start, log), stamps)
    ensures k in ApplyLog(s, start, Logged(log, stamps))
    ensures Apply(s, ApplyLog(s, start, log), stamps)[k] == ApplyLog(s, start, Logged(log, stamps))[k]
  {
    NextTimes(log, stamps, k);
    RewrittenNext(s, start[k], Times(log, k), Times(Logged(log, stamps), k));
    assert ApplyLog(s, start, log)[k] == Rewritten(s, start[k], Times(log, k));
  }

  lemma RewrittenNext(s: Strategy, d: Doc, times: seq<int>, next: seq<int>)
    ensures next != [] && next[..|next| - 1] == times ==>
      var before := Rewritten(s, d, times);
      Rewritten(s, d, next) == before + Patch(s, before, next[|next| - 1])
  {
  }

  lemma NextTimes(log: Log, stamps: map<nat, int>, k: nat)
    ensures
      var next := Times(Logged(log, stamps), k);
      if k in stamps then next != [] && next[..|next| - 1] == Times(log, k) && next[|next| - 1] == stamps[k]
      else next == Times(log, k)
  {
    assert Times(log, k) + [] == Times(log, k);
  }

  datatype Progress = Progress(rows: Rows, cursor: Option<nat>, log: Log, total: nat)

  function Left(cohort: Doc -> bool, p: Progress): set<nat> {
    Rest(p.rows, cohort, p.cursor)
  }

  // One call of the port: a throw leaves the cursor, though part of the chunk may be written.
  function Attempt(cohort: Doc -> bool, s: Strategy, limit: nat, now: int, fault: Fault, p: Progress): Progress {
    var chunk := Chunk(p.rows, cohort, p.cursor, limit);
    var stamps := Landed(chunk, now, fault);
    if chunk == [] then p
    else if fault.Some? then Progress(Apply(s, p.rows, stamps), p.cursor, Logged(p.log, stamps), p.total)
    else Progress(Apply(s, p.rows, stamps), Some(chunk[|chunk| - 1]), Logged(p.log, stamps), p.total + |chunk|)
  }

  function First(faults: seq<Fault>): Fault {
    if faults == [] then None else faults[0]
  }

  function Others(faults: seq<Fault>): seq<Fault> {
    if faults == [] then [] else faults[1..]
  }

  // What one call does to the rows left: a call that does not throw takes its chunk off, one
  // that throws takes off at most the rows it wrote.
  lemma AttemptLeft(cohort: Doc -> bool, s: Strategy, limit: nat, now: int, fault: Fault, p: Progress)
    requires Left(cohort, p) != {}
    ensures
      var chunk := Chunk(p.rows, cohort, p.cursor, limit);
      var before, after := Left(cohort, p), Left(cohort, Attempt(cohort, s, limit, now, fault, p));
      && chunk != [] && (forall k | k in chunk :: k in before)
      && (if fault.None? then forall k: nat :: k in after <==> k in before && k !in chunk
          else forall k: nat ::
            (k in after ==> k in before) && (k in before && !(k in chunk && Lands(fault, k)) ==> k in after))
  {
    ChunkIsInitial(p.rows, cohort, p.cursor, limit);
    var chunk := Chunk(p.rows, cohort, p.cursor, limit);
    if fault.None? {
      ChunkAdvances(p.rows, cohort, p.cursor, limit, s, now);
      assert Landed(chunk, now, fault) == Stamped(chunk, now);
    } else {
      ThrowLeaves(p.rows, cohort, p.cursor, s, Landed(chunk, now, fault));
    }
  }

  lemma ThrowLeaves(rows: Rows, cohort: Doc -> bool, cursor: Option<nat>, s: Strategy, stamps: map<nat, int>)
    requires forall k | k in stamps :: k in Rest(rows, cohort, cursor)
    ensures
      var before, after := Rest(rows, cohort, cursor), Rest(Apply(s, rows, stamps), cohort, cursor);
      forall k: nat :: (k in after ==> k in before) && (k in before && k !in stamps ==> k in after)
  {
  }

  lemma AttemptShrinks(cohort: Doc -> bool, s: Strategy, limit: nat, now: int, p: Progress)
    requires Left(cohort, p) != {}
    ensures |Left(cohort, Attempt(cohort, s, limit, now, None, p))| < |Left(cohort, p)|
  {
    AttemptLeft(cohort, s, limit, now, None, p);
    var chunk := Chunk(p.rows, cohort, p.cursor, limit);
    var before, after := Left(cohort, p), Left(cohort, Attempt(cohort, s, limit, now, None, p));
    assert chunk[0] in chunk && chunk[0] in before && chunk[0] !in after;
    ProperSubset(after, before, chunk[0]);
  }

  lemma ProperSubset(a: set<nat>, b: set<nat>, k: nat)
    requires a <= b && k in b && k !in a
    ensures |a| < |b|
  {
    assert b == a + (b - a);
    assert |b| == |a| + |b - a|;
    assert k in b - a;
  }

  // The port called until a chunk comes back empty; the faults are those of its calls, in
  // order, and no call after them throws.
  function RunAll(cohort: Doc -> bool, s: Strategy, limit: nat, clock: nat -> int, calls: nat, faults: seq<Fault>,
                  p: Progress): Progress
    decreases |faults|, |Left(cohort, p)|
  {
    if Left(cohort, p) == {} then p
    else
      AttemptShrinks(cohort, s, limit, clock(calls), p);
      RunAll(cohort, s, limit, clock, calls + 1, Others(faults),
             Attempt(cohort, s, limit, clock(calls), First(faults), p))
  }

  // Main result: through any throws, every row that matches at the start is written at least
  // once, no other row ever, and the rows are what those writes make of them.
  lemma {:induction false} RunWritesAll(cohort: Doc -> bool, s: Strategy, limit: nat, clock: nat -> int, calls: nat,
                                        faults: seq<Fault>, p: Progress, start: Rows)
    requires p.rows == ApplyLog(s, start, p.log)
    ensures
      var q := RunAll(cohort, s, limit, clock, calls, faults, p);
      && (forall k: nat :: k in q.log <==> k in p.log || k in Left(cohort, p))
      && q.rows == ApplyLog(s, start, q.log)
      && Left(cohort, q) == {}
    decreases |faults|, |Left(cohort, p)|
  {
    if Left(cohort, p) != {} {
      var now, fault := clock(calls), First(faults);
      AttemptShrinks(cohort, s, limit, now, p);
      AttemptLeft(cohort, s, limit, now, fault, p);
      AttemptLog(cohort, s, limit, now, fault, p, start);
      RunWritesAll(cohort, s, limit, clock, calls + 1, Others(faults), Attempt(cohort, s, limit, now, fault, p), start);
    }
  }

  lemma AttemptLog(cohort: Doc -> bool, s: Strategy, limit: nat, now: int, fault: Fault, p: Progress, start: Rows)
    requires p.rows == ApplyLog(s, start, p.log) && Left(cohort, p) != {}
    ensures
      var chunk, q := Chunk(p.rows, cohort, p.cursor, limit), Attempt(cohort, s, limit, now, fault, p);
      && q.rows == ApplyLog(s, start, q.log)
      && (forall k: nat :: k in q.log <==> k in p.log || (k in chunk && Lands(fault, k)))
  {
    ChunkIsInitial(p.rows, cohort, p.cursor, limit);
    ApplyNext(s, start, p.log, Landed(Chunk(p.rows, cohort, p.cursor, limit), now, fault));
  }

  // ---- Once or twice ---------------------------------------------------------------------

  // Some write that threw had reached the row, and the row still matched afterwards.
  ghost predicate Relanded(cohort: Doc -> bool, s: Strategy, limit: nat, clock: nat -> int, calls: nat,
                           faults: seq<Fault>, p: Progress, k: nat)
    decreases |faults|, |Left(cohort, p)|
  {
    Left(cohort, p) != {} &&
    var chunk := Chunk(p.rows, cohort, p.cursor, limit);
    var next := Attempt(cohort, s, limit, clock(calls), First(faults), p);
    AttemptShrinks(cohort, s, limit, clock(calls), p);
    || (First(faults).Some? && k in chunk && k in First(faults).value && k in Left(cohort, next))
    || Relanded(cohort, s, limit, clock, calls + 1, Others(faults), next, k)
  }

  lemma AttemptTimes(cohort: Doc -> bool, s: Strategy, limit: nat, now: int, fault: Fault, p: Progress, k: nat)
    requires Left(cohort, p) != {}
    ensures
      var chunk, q := Chunk(p.rows, cohort, p.cursor, limit), Attempt(cohort, s, limit, now, fault, p);
      |Times(q.log, k)| == |Times(p.log, k)| + if k in chunk && Lands(fault, k) then 1 else 0
  {
    ChunkIsInitial(p.rows, cohort, p.cursor, limit);
  }

  // Main result: a matching row is written more than once exactly when a write that threw had
  // reached it and it still matched.
  lemma {:induction false} TwiceExactlyWhenRelanded(
    cohort: Doc -> bool, s: Strategy, limit: nat, clock: nat -> int, calls: nat, faults: seq<Fault>, p: Progress,
    k: nat)
    ensures
      var q := RunAll(cohort, s, limit, clock, calls, faults, p);
      var written := |Times(q.log, k)| - |Times(p.log, k)|;
      var twice := Relanded(cohort, s, limit, clock, calls, faults, p, k);
      if k in Left(cohort, p) then written >= 1 && (written > 1 <==> twice) else written == 0 && !twice
    decreases |faults|, |Left(cohort, p)|
  {
    if Left(cohort, p) != {} {
      var now, fault := clock(calls), First(faults);
      AttemptShrinks(cohort, s, limit, now, p);
      AttemptLeft(cohort, s, limit, now, fault, p);
      AttemptTimes(cohort, s, limit, now, fault, p, k);
      TwiceExactlyWhenRelanded(cohort, s, limit, clock, calls + 1, Others(faults),
                               Attempt(cohort, s, limit, now, fault, p), k);
    }
  }

  // No throw had reached a row.
  predicate NothingLanded(faults: seq<Fault>) {
    forall i | 0 <= i < |faults| && faults[i].Some? :: faults[i].value == {}
  }

  // Main result: if no throw had reached a row, each matching row is written exactly once and
  // the counts add up to their number.
  lemma {:induction false} OnceAndCounted(cohort: Doc -> bool, s: Strategy, limit: nat, clock: nat -> int, calls: nat,
                                          faults: seq<Fault>, p: Progress)
    requires NothingLanded(faults)
    ensures forall k :: !Relanded(cohort, s, limit, clock, calls, faults, p, k)
    ensures RunAll(cohort, s, limit, clock, calls, faults, p).total == p.total + |Left(cohort, p)|
    decreases |faults|, |Left(cohort, p)|
  {
    if Left(cohort, p) != {} {
      var now, fault := clock(calls), First(faults);
      AttemptShrinks(cohort, s, limit, now, p);
      AttemptCounts(cohort, s, limit, now, fault, p);
      OnceAndCounted(cohort, s, limit, clock, calls + 1, Others(faults), Attempt(cohort, s, limit, now, fault, p));
    }
  }

  lemma AttemptCounts(cohort: Doc -> bool, s: Strategy, limit: nat, now: int, fault: Fault, p: Progress)
    requires Left(cohort, p) != {} && (fault.Some? ==> fault.value == {})
    ensures var q := Attempt(cohort, s, limit, now, fault, p);
      q.total + |Left(cohort, q)| == p.total + |Left(cohort, p)|
  {
    AttemptLeft(cohort, s, limit, now, fault, p);
    ChunkIsInitial(p.rows, cohort, p.cursor, limit);
    var chunk := Chunk(p.rows, cohort, p.cursor, limit);
    var before, after := Left(cohort, p), Left(cohort, Attempt(cohort, s, limit, now, fault, p));
    if fault.None? {
      LessChunk(before, after, chunk);
    } else {
      assert before == after;
    }
  }

  lemma LessChunk(before: set<nat>, after: set<nat>, chunk: seq<nat>)
    requires forall i, j | 0 <= i < j < |chunk| :: chunk[i] < chunk[j]
    requires forall k | k in chunk :: k in before
    requires forall k: nat :: k in after <==> k in before && k !in chunk
    ensures |before| == |after| + |chunk|
  {
    var ids := set k | k in chunk;
    DistinctCount(chunk, ids);
    assert before == after + ids;
  }

  // A hard purge never writes a row twice: a row it reached is gone.
  lemma {:induction false} HardWritesOnce(cohort: Doc -> bool, limit: nat, clock: nat -> int, calls: nat,
                                          faults: seq<Fault>, p: Progress, k: nat)
    ensures !Relanded(cohort, Hard, limit, clock, calls, faults, p, k)
    decreases |faults|, |Left(cohort, p)|
  {
    if Left(cohort, p) != {} {
      AttemptShrinks(cohort, Hard, limit, clock(calls), p);
      ChunkIsInitial(p.rows, cohort, p.cursor, limit);
      HardWritesOnce(cohort, limit, clock, calls + 1, Others(faults),
                     Attempt(cohort, Hard, limit, clock(calls), First(faults), p), k);
    }
  }

  // ---- When writing twice does no harm ---------------------------------------------------

  // The patch of a written row is the patch of the row.
  ghost predicate Repeatable(s: Strategy) {
    forall d, t, u :: Patch(s, d + Patch(s, d, t), u) == Patch(s, d, u)
  }

  lemma {:induction false} LastTimeCounts(s: Strategy, d: Doc, times: seq<int>)
    requires Repeatable(s) && times != []
    ensures Rewritten(s, d, times) == d + Patch(s, d, times[|times| - 1])
    decreases |times|
  {
    var init, u := times[..|times| - 1], times[|times| - 1];
    if init != [] {
      LastTimeCounts(s, d, init);
      var t := init[|init| - 1];
      assert Patch(s, d + Patch(s, d, t), u) == Patch(s, d, u);
      Overwrites(s, d, t, u);
    }
  }

  lemma Overwrites(s: Strategy, d: Doc, t: int, u: int)
    ensures d + Patch(s, d, t) + Patch(s, d, u) == d + Patch(s, d, u)
  {
    assert Patch(s, d, t).Keys == Patch(s, d, u).Keys;
  }

  function LastTimes(log: Log): map<nat, int> {
    map k | k in log && log[k] != [] :: log[k][|log[k]| - 1]
  }

  // Main result: with a repeatable strategy the rows end up as if each logged row had been
  // written once, at its last time.
  lemma RepeatsDoNoHarm(s: Strategy, start: Rows, log: Log)
    requires Repeatable(s) && forall k | k in log :: log[k] != []
    ensures ApplyLog(s, start, log) == Apply(s, start, LastTimes(log))
  {
    forall k | k in start && k in log
      ensures Rewritten(s, start[k], log[k]) == start[k] + Patch(s, start[k], LastTimes(log)[k])
    {
      LastTimeCounts(s, start[k], log[k]);
    }
  }

  // And with no other strategy: some row written twice then ends up otherwise.
  lemma HarmlessExactly(s: Strategy)
    ensures Repeatable(s) <==>
      forall start: Rows, log: Log | forall k | k in log :: log[k] != [] ::
        ApplyLog(s, start, log) == Apply(s, start, LastTimes(log))
  {
    if Repeatable(s) {
      forall start: Rows, log: Log | forall k | k in log :: log[k] != []
        ensures ApplyLog(s, start, log) == Apply(s, start, LastTimes(log))
      {
        RepeatsDoNoHarm(s, start, log);
      }
    } else {
      var d, t, u :| Patch(s, d + Patch(s, d, t), u) != Patch(s, d, u);
      TwiceHarms(s, d, t, u);
    }
  }

  lemma TwiceHarms(s: Strategy, d: Doc, t: int, u: int)
    requires Patch(s, d + Patch(s, d, t), u) != Patch(s, d, u)
    ensures ApplyLog(s, map[0 := d], map[0 := [t, u]]) != Apply(s, map[0 := d], LastTimes(map[0 := [t, u]]))
  {
    var before := d + Patch(s, d, t);
    assert [t, u][..1] == [t] && [t][..0] == [];
    assert Rewritten(s, d, [t]) == before;
    assert Rewritten(s, d, [t, u]) == before + Patch(s, before, u);
    assert Patch(s, before, u).Keys == Patch(s, d, u).Keys;
    var f :| f in Patch(s, d, u) && Patch(s, before, u)[f] != Patch(s, d, u)[f];
    assert (before + Patch(s, before, u))[f] != (d + Patch(s, d, u))[f];
    assert !s.Hard?;
    assert ApplyLog(s, map[0 := d], map[0 := [t, u]])[0] == before + Patch(s, before, u);
  }

  // Hard, soft and static writes are repeatable; so are replacers that a written row does not move.
  lemma RepeatableExactly(s: Strategy)
    ensures Repeatable(s) <==>
      (IsFunctional(s) ==>
         forall d, f | f in s.fields ::
           Replacement(s.fields[f], d + Patch(s, d, 0)) == Replacement(s.fields[f], d))
  {
    if s.Anonymize? {
      forall d, t ensures Patch(s, d, t) == Patch(s, d, 0) {
      }
      if Repeatable(s) {
        forall d, f | f in s.fields
          ensures Replacement(s.fields[f], d + Patch(s, d, 0)) == Replacement(s.fields[f], d)
        {
          assert Patch(s, d + Patch(s, d, 0), 0)[f] == Patch(s, d, 0)[f];
        }
      } else {
        var d, t, u :| Patch(s, d + Patch(s, d, t), u) != Patch(s, d, u);
        var f :| f in s.fields && Replacement(s.fields[f], d + Patch(s, d, 0)) != Replacement(s.fields[f], d);
        assert IsFunctional(s) by {
          assert s.fields[f].Computed?;
        }
      }
    }
  }

  // ---- A run from the start ----------------------------------------------------------------

  // Two cohorts that only the _id of a row tells apart.
  ghost predicate SplitById(first: Doc -> bool, later: Doc -> bool) {
    && (forall d | first(d) :: later(d))
    && (forall a, b | first(a) && later(b) && Read(a, "_id") == Read(b, "_id") :: first(b))
  }

  // The port called until a chunk comes back empty, with the cohort of the first chunk and
  // that of the later ones.
  function RunPort(first: Doc -> bool, later: Doc -> bool, s: Strategy, limit: nat, clock: nat -> int, calls: nat,
                   faults: seq<Fault>, p: Progress): Progress
    decreases |faults|
  {
    var next := Attempt(first, s, limit, clock(calls), First(faults), p);
    if Left(first, p) == {} then p
    else if First(faults).Some? then RunPort(first, later, s, limit, clock, calls + 1, Others(faults), next)
    else RunAll(later, s, limit, clock, calls + 1, Others(faults), next)
  }

  // The cursor that the first chunk to succeed leaves.
  function Handover(first: Doc -> bool, s: Strategy, limit: nat, clock: nat -> int, calls: nat, faults: seq<Fault>,
                    p: Progress): Option<nat>
    decreases |faults|
  {
    var next := Attempt(first, s, limit, clock(calls), First(faults), p);
    if Left(first, p) == {} then None
    else if First(faults).Some? then Handover(first, s, limit, clock, calls + 1, Others(faults), next)
    else next.cursor
  }

  // The rows past a cursor that only the later chunks take.
  function Strays(first: Doc -> bool, later: Doc -> bool, rows: Rows, cursor: Option<nat>): set<nat> {
    set k | k in rows && cursor.Some? && k > cursor.value && later(rows[k]) && !first(rows[k])
  }

  // Writes do not move rows into or out of the strays.
  lemma StraysStay(first: Doc -> bool, later: Doc -> bool, s: Strategy, rows: Rows, stamps: map<nat, int>,
                   cursor: Option<nat>)
    requires Identified(rows) && KeepsId(s) && SplitById(first, later)
    requires forall k | k in stamps :: k in rows && first(rows[k])
    ensures Strays(first, later, Apply(s, rows, stamps), cursor) == Strays(first, later, rows, cursor)
  {
    ApplyKeepsIds(s, rows, stamps);
    var after := Apply(s, rows, stamps);
    forall k | k in after && k in stamps ensures first(rows[k]) && (later(after[k]) ==> first(after[k])) {
      assert Read(after[k], "_id") == Oid(k) == Read(rows[k], "_id");
    }
  }

  lemma ThrowKeepsStrays(first: Doc -> bool, later: Doc -> bool, s: Strategy, limit: nat, now: int, fault: Fault,
                         p: Progress, cursor: Option<nat>)
    requires Identified(p.rows) && KeepsId(s) && SplitById(first, later) && p.cursor == None
    requires Left(first, p) != {} && fault.Some?
    ensures
      var q := Attempt(first, s, limit, now, fault, p);
      && Identified(q.rows) && q.cursor == None
      && Strays(first, later, q.rows, cursor) == Strays(first, later, p.rows, cursor)
  {
    ChunkIsInitial(p.rows, first, p.cursor, limit);
    var stamps := Landed(Chunk(p.rows, first, p.cursor, limit), now, fault);
    ApplyKeepsIds(s, p.rows, stamps);
    StraysStay(first, later, s, p.rows, stamps, cursor);
  }

  // Behind the first chunk the later cohort takes over what is left, and the strays.
  lemma TakenOver(first: Doc -> bool, later: Doc -> bool, s: Strategy, limit: nat, now: int, p: Progress)
    requires Identified(p.rows) && SplitById(first, later) && p.cursor == None && Left(first, p) != {}
    ensures
      var chunk, q := Chunk(p.rows, first, p.cursor, limit), Attempt(first, s, limit, now, None, p);
      && q.cursor.Some?
      && forall k: nat :: k in Left(later, q) <==>
           (k in Left(first, p) && k !in chunk) || k in Strays(first, later, p.rows, q.cursor)
  {
    ChunkIsInitial(p.rows, first, p.cursor, limit);
    var chunk := Chunk(p.rows, first, p.cursor, limit);
    BehindChunk(first, later, s, p.rows, chunk, Landed(chunk, now, None), chunk[|chunk| - 1]);
  }

  lemma BehindChunk(first: Doc -> bool, later: Doc -> bool, s: Strategy, rows: Rows, chunk: seq<nat>,
                    stamps: map<nat, int>, last: nat)
    requires forall d | first(d) :: later(d)
    requires forall k :: k in stamps <==> k in chunk
    requires forall k | k in Rest(rows, first, None) :: k in chunk <==> k <= last
    requires forall k | k in chunk :: k in Rest(rows, first, None)
    ensures forall k: nat :: k in Rest(Apply(s, rows, stamps), later, Some(last)) <==>
      (k in Rest(rows, first, None) && k !in chunk) || k in Strays(first, later, rows, Some(last))
  {
    forall k | k in chunk ensures k <= last {
      assert k in Rest(rows, first, None);
    }
  }

  // Main result: through any throws, the rows written are those of the first cohort and the
  // strays past the cursor of the first chunk to succeed.
  lemma {:induction false} PortWrites(
    first: Doc -> bool, later: Doc -> bool, s: Strategy, limit: nat, clock: nat -> int, calls: nat,
    faults: seq<Fault>, p: Progress, start: Rows)
    requires Identified(p.rows) && KeepsId(s) && SplitById(first, later) && p.cursor == None
    requires p.rows == ApplyLog(s, start, p.log)
    ensures
      var q := RunPort(first, later, s, limit, clock, calls, faults, p);
      var strays := Strays(first, later, p.rows, Handover(first, s, limit, clock, calls, faults, p));
      && (forall k: nat :: k in q.log <==> k in p.log || k in Left(first, p) || k in strays)
      && q.rows == ApplyLog(s, start, q.log)
    decreases |faults|
  {
    if Left(first, p) != {} {
      var now, fault := clock(calls), First(faults);
      var next := Attempt(first, s, limit, now, fault, p);
      AttemptLog(first, s, limit, now, fault, p, start);
      AttemptLeft(first, s, limit, now, fault, p);
      if fault.Some? {
        ThrowKeepsStrays(first, later, s, limit, now, fault, p,
                         Handover(first, s, limit, clock, calls + 1, Others(faults), next));
        PortWrites(first, later, s, limit, clock, calls + 1, Others(faults), next, start);
      } else {
        TakenOver(first, later, s, limit, now, p);
        RunWritesAll(later, s, limit, clock, calls + 1, Others(faults), next, start);
      }
    }
  }

  // Some write that threw had reached the row, and the row still matched afterwards.
  ghost predicate RelandedInPort(first: Doc -> bool, later: Doc -> bool, s: Strategy, limit: nat, clock: nat -> int,
                                 calls: nat, faults: seq<Fault>, p: Progress, k: nat)
    decreases |faults|
  {
    Left(first, p) != {} &&
    var next := Attempt(first, s, limit, clock(calls), First(faults), p);
    if First(faults).Some? then
      || (k in Chunk(p.rows, first, p.cursor, limit) && k in First(faults).value && k in Left(first, next))
      || RelandedInPort(first, later, s, limit, clock, calls + 1, Others(faults), next, k)
    else Relanded(later, s, limit, clock, calls + 1, Others(faults), next, k)
  }

  lemma {:induction false} PortTimes(
    first: Doc -> bool, later: Doc -> bool, s: Strategy, limit: nat, clock: nat -> int, calls: nat,
    faults: seq<Fault>, p: Progress, k: nat)
    requires Identified(p.rows) && KeepsId(s) && SplitById(first, later) && p.cursor == None
    ensures
      var q := RunPort(first, later, s, limit, clock, calls, faults, p);
      var strays := Strays(first, later, p.rows, Handover(first, s, limit, clock, calls, faults, p));
      var written := |Times(q.log, k)| - |Times(p.log, k)|;
      var twice := RelandedInPort(first, later, s, limit, clock, calls, faults, p, k);
      if k in Left(first, p) || k in strays then written >= 1 && (written > 1 <==> twice) else written == 0 && !twice
    decreases |faults|
  {
    if Left(first, p) != {} {
      var now, fault := clock(calls), First(faults);
      var next := Attempt(first, s, limit, now, fault, p);
      AttemptTimes(first, s, limit, now, fault, p, k);
      AttemptLeft(first, s, limit, now, fault, p);
      if fault.Some? {
        ThrowKeepsStrays(first, later, s, limit, now, fault, p,
                         Handover(first, s, limit, clock, calls + 1, Others(faults), next));
        PortTimes(first, later, s, limit, clock, calls + 1, Others(faults), next, k);
      } else {
        TakenOver(first, later, s, limit, now, p);
        TwiceExactlyWhenRelanded(later, s, limit, clock, calls + 1, Others(faults), next, k);
      }
    }
  }

  lemma NothingLandedStays(cohort: Doc -> bool, s: Strategy, limit: nat, now: int, fault: Fault, p: Progress)
    requires fault == Some({})
    ensures
      var q := Attempt(cohort, s, limit, now, fault, p);
      q.rows == p.rows && q.cursor == p.cursor && q.total == p.total
  {
    ApplyNothing(s, p.rows, Landed(Chunk(p.rows, cohort, p.cursor, limit), now, fault));
  }

  // If no throw had reached a row, the first chunk to succeed is that of the start.
  lemma {:induction false} HandoverIsFirst(first: Doc -> bool, s: Strategy, limit: nat, clock: nat -> int, calls: nat,
                                           faults: seq<Fault>, p: Progress, chunk: seq<nat>)
    requires NothingLanded(faults) && p.cursor == None && chunk == Chunk(p.rows, first, None, limit)
    ensures Handover(first, s, limit, clock, calls, faults, p) == EndOf(chunk)
    decreases |faults|
  {
    EmptyWhenNoneLeft(first, limit, p, chunk);
    if Left(first, p) != {} && First(faults).Some? {
      NothingLandedStays(first, s, limit, clock(calls), First(faults), p);
      HandoverIsFirst(first, s, limit, clock, calls + 1, Others(faults),
                      Attempt(first, s, limit, clock(calls), First(faults), p), chunk);
    }
  }

  function EndOf(chunk: seq<nat>): Option<nat> {
    if chunk == [] then None else Some(chunk[|chunk| - 1])
  }

  lemma EmptyWhenNoneLeft(cohort: Doc -> bool, limit: nat, p: Progress, chunk: seq<nat>)
    requires chunk == Chunk(p.rows, cohort, p.cursor, limit)
    ensures chunk == [] <==> Left(cohort, p) == {}
  {
    ChunkIsInitial(p.rows, cohort, p.cursor, limit);
  }

  // And the counts add up.
  lemma {:induction false} PortCounts(first: Doc -> bool, later: Doc -> bool, s: Strategy, limit: nat,
                                      clock: nat -> int, calls: nat, faults: seq<Fault>, p: Progress)
    requires Identified(p.rows) && KeepsId(s) && SplitById(first, later) && p.cursor == None
    requires NothingLanded(faults)
    ensures RunPort(first, later, s, limit, clock, calls, faults, p).total
      == p.total + |Left(first, p)|
         + |Strays(first, later, p.rows, Handover(first, s, limit, clock, calls, faults, p))|
    decreases |faults|
  {
    if Left(first, p) == {} {
      assert Strays(first, later, p.rows, None) == {};
    } else {
      var next := Attempt(first, s, limit, clock(calls), First(faults), p);
      if First(faults).Some? {
        NothingLandedStays(first, s, limit, clock(calls), First(faults), p);
        PortCounts(first, later, s, limit, clock, calls + 1, Others(faults), next);
      } else {
        FirstChunkCounts(first, later, s, limit, clock(calls), p);
        OnceAndCounted(later, s, limit, clock, calls + 1, Others(faults), next);
      }
    }
  }

  lemma FirstChunkCounts(first: Doc -> bool, later: Doc -> bool, s: Strategy, limit: nat, now: int, p: Progress)
    requires Identified(p.rows) && SplitById(first, later) && p.cursor == None && Left(first, p) != {}
    ensures
      var q := Attempt(first, s, limit, now, None, p);
      q.total + |Left(later, q)| == p.total + |Left(first, p)| + |Strays(first, later, p.rows, q.cursor)|
  {
    ChunkIsInitial(p.rows, first, None, limit);
    TakenOver(first, later, s, limit, now, p);
    var q := Attempt(first, s, limit, now, None, p);
    CountTakenOver(Left(first, p), Left(later, q), Chunk(p.rows, first, None, limit),
                   Strays(first, later, p.rows, q.cursor));
  }

  lemma CountTakenOver(before: set<nat>, after: set<nat>, chunk: seq<nat>, strays: set<nat>)
    requires forall i, j | 0 <= i < j < |chunk| :: chunk[i] < chunk[j]
    requires forall k | k in chunk :: k in before
    requires before !! strays
    requires forall k: nat :: k in after <==> (k in before && k !in chunk) || k in strays
    ensures |chunk| + |after| == |before| + |strays|
  {
    var own := set k | k in before && k !in chunk;
    LessChunk(before, own, chunk);
    assert after == own + strays && own !! strays;
  }

  lemma NothingWritten(s: Strategy, start: Rows)
    ensures ApplyLog(s, start, map[]) == start
  {
  }

  // Main result, for a run from its start: the rows written are those that matched and the
  // strays; each is written once, or more often exactly when a throw had reached it and it
  // still matched; with a repeatable strategy that makes no difference; and if no throw had
  // reached a row the counts add up.
  lemma PurgeOutcome(first: Doc -> bool, later: Doc -> bool, s: Strategy, limit: nat, clock: nat -> int,
                     faults: seq<Fault>, start: Rows)
    requires Identified(start) && KeepsId(s) && SplitById(first, later)
    ensures
      var p := Progress(start, None, map[], 0);
      var q := RunPort(first, later, s, limit, clock, 0, faults, p);
      && q.log.Keys == Left(first, p) + Strays(first, later, start, Handover(first, s, limit, clock, 0, faults, p))
      && q.rows == ApplyLog(s, start, q.log)
      && (forall k | k in q.log ::
            && q.log[k] != []
            && (|q.log[k]| > 1 <==> RelandedInPort(first, later, s, limit, clock, 0, faults, p, k)))
      && (Repeatable(s) ==> q.rows == Apply(s, start, LastTimes(q.log)))
      && (NothingLanded(faults) ==> q.total == |q.log.Keys|)
  {
    var p := Progress(start, None, map[], 0);
    var q := RunPort(first, later, s, limit, clock, 0, faults, p);
    OutcomeKeys(first, later, s, limit, clock, faults, start);
    forall k | k in q.log
      ensures q.log[k] != [] && (|q.log[k]| > 1 <==> RelandedInPort(first, later, s, limit, clock, 0, faults, p, k))
    {
      OutcomeTimes(first, later, s, limit, clock, faults, start, k);
    }
    if Repeatable(s) {
      RepeatsDoNoHarm(s, start, q.log);
    }
    if NothingLanded(faults) {
      OutcomeCounts(first, later, s, limit, clock, faults, start);
    }
  }

  lemma OutcomeKeys(first: Doc -> bool, later: Doc -> bool, s: Strategy, limit: nat, clock: nat -> int,
                    faults: seq<Fault>, start: Rows)
    requires Identified(start) && KeepsId(s) && SplitById(first, later)
    ensures
      var p := Progress(start, None, map[], 0);
      var q := RunPort(first, later, s, limit, clock, 0, faults, p);
      && q.log.Keys == Left(first, p) + Strays(first, later, start, Handover(first, s, limit, clock, 0, faults, p))
      && q.rows == ApplyLog(s, start, q.log)
  {
    var p := Progress(start, None, map[], 0);
    NothingWritten(s, start);
    PortWrites(first, later, s, limit, clock, 0, faults, p, start);
    SameIds(RunPort(first, later, s, limit, clock, 0, faults, p).log.Keys,
            Left(first, p) + Strays(first, later, start, Handover(first, s, limit, clock, 0, faults, p)));
  }

  lemma OutcomeTimes(first: Doc -> bool, later: Doc -> bool, s: Strategy, limit: nat, clock: nat -> int,
                     faults: seq<Fault>, start: Rows, k: nat)
    requires Identified(start) && KeepsId(s) && SplitById(first, later)
    ensures
      var p := Progress(start, None, map[], 0);
      var q := RunPort(first, later, s, limit, clock, 0, faults, p);
      k in q.log ==>
        && q.log[k] != []
        && (|q.log[k]| > 1 <==> RelandedInPort(first, later, s, limit, clock, 0, faults, p, k))
  {
    OutcomeKeys(first, later, s, limit, clock, faults, start);
    PortTimes(first, later, s, limit, clock, 0, faults, Progress(start, None, map[], 0), k);
  }

  lemma OutcomeCounts(first: Doc -> bool, later: Doc -> bool, s: Strategy, limit: nat, clock: nat -> int,
                      faults: seq<Fault>, start: Rows)
    requires Identified(start) && KeepsId(s) && SplitById(first, later) && NothingLanded(faults)
    ensures
      var q := RunPort(first, later, s, limit, clock, 0, faults, Progress(start, None, map[], 0));
      q.total == |q.log.Keys|
  {
    var p := Progress(start, None, map[], 0);
    OutcomeKeys(first, later, s, limit, clock, faults, start);
    PortCounts(first, later, s, limit, clock, 0, faults, p);
    assert Left(first, p) !! Strays(first, later, start, Handover(first, s, limit, clock, 0, faults, p));
  }

  lemma SameIds(a: set<nat>, b: set<nat>)
    requires forall k: nat :: k in a <==> k in b
    ensures a == b
  {
  }

  // The cohorts of a filter: the whole of it for the first chunk, what is left of it without
  // its top-level _id entry for the later ones.
  lemma FilterSplitsById(e: Engine, base: Query, first: Doc -> bool, later: Doc -> bool)
    requires Selects(e, base, first) && Selects(e, Anywhere(base), later)
    ensures SplitById(first, later)
  {
    forall d ensures first(d) <==> later(d) && IdTestsPass(e, base.fields, d) {
      WithoutSplits(e, base.fields, d);
      assert Matches(e, base, d) <==> Matches(e, Anywhere(base), d) && IdTestsPass(e, base.fields, d);
    }
    forall a, b | first(a) && later(b) && Read(a, "_id") == Read(b, "_id") ensures first(b) {
      SameIdSameTests(e, base.fields, a, b);
    }
  }

  lemma SameIdSameTests(e: Engine, fields: seq<FieldTest>, a: Doc, b: Doc)
    requires Read(a, "_id") == Read(b, "_id") && IdTestsPass(e, fields, a)
    ensures IdTestsPass(e, fields, b)
  {
  }

  // No row past the cursor that the first chunk to succeed left matches the filter but for its
  // top-level _id entry.
  ghost predicate NoneBehind(e: Engine, base: Query, rows: Rows, cursor: Option<nat>) {
    forall k | k in rows && cursor.Some? && k > cursor.value && Matches(e, Anywhere(base), rows[k]) ::
      Matches(e, base, rows[k])
  }

  // Main result: a purge writes exactly the rows that match its filter if and only if there is
  // no such row. If no throw had reached a row, that cursor is the end of the first chunk.
  lemma PurgeIsExact(e: Engine, base: Query, first: Doc -> bool, later: Doc -> bool, s: Strategy, limit: nat,
                     clock: nat -> int, faults: seq<Fault>, start: Rows)
    requires Identified(start) && KeepsId(s)
    requires Selects(e, base, first) && Selects(e, Anywhere(base), later)
    ensures
      var p := Progress(start, None, map[], 0);
      var cursor := Handover(first, s, limit, clock, 0, faults, p);
      && (RunPort(first, later, s, limit, clock, 0, faults, p).log.Keys == Matching(e, start, base)
          <==> NoneBehind(e, base, start, cursor))
      && (NothingLanded(faults) ==> cursor == EndOf(Selected(e, start, base, None, limit)))
  {
    var written, cursor := PurgeReaches(e, base, first, later, s, limit, clock, faults, start);
    StraysBehind(e, base, first, later, start, cursor);
    OnlyWithoutMore(written, Matching(e, start, base), Strays(first, later, start, cursor));
    if NothingLanded(faults) {
      SelectedIsChunk(e, start, base, None, limit, first);
      HandoverIsFirst(first, s, limit, clock, 0, faults, Progress(start, None, map[], 0),
                      Chunk(start, first, None, limit));
    }
  }

  lemma PurgeReaches(e: Engine, base: Query, first: Doc -> bool, later: Doc -> bool, s: Strategy, limit: nat,
                     clock: nat -> int, faults: seq<Fault>, start: Rows)
    returns (written: set<nat>, cursor: Option<nat>)
    requires Identified(start) && KeepsId(s)
    requires Selects(e, base, first) && Selects(e, Anywhere(base), later)
    ensures
      var p := Progress(start, None, map[], 0);
      && written == RunPort(first, later, s, limit, clock, 0, faults, p).log.Keys
      && cursor == Handover(first, s, limit, clock, 0, faults, p)
    ensures written == Rest(start, first, None) + Strays(first, later, start, cursor)
  {
    var p := Progress(start, None, map[], 0);
    FilterSplitsById(e, base, first, later);
    PurgeOutcome(first, later, s, limit, clock, faults, start);
    written := RunPort(first, later, s, limit, clock, 0, faults, p).log.Keys;
    cursor := Handover(first, s, limit, clock, 0, faults, p);
  }

  lemma OnlyWithoutMore(all: set<nat>, some: set<nat>, more: set<nat>)
    requires all == some + more && some !! more
    ensures all == some <==> more == {}
  {
  }

  lemma StraysBehind(e: Engine, base: Query, first: Doc -> bool, later: Doc -> bool, rows: Rows, cursor: Option<nat>)
    requires Selects(e, base, first) && Selects(e, Anywhere(base), later)
    ensures Rest(rows, first, None) == Matching(e, rows, base)
    ensures Strays(first, later, rows, cursor) == {} <==> NoneBehind(e, base, rows, cursor)
    ensures Rest(rows, first, None) !! Strays(first, later, rows, cursor)
  {
    assert forall k | k in rows :: first(rows[k]) <==> Matches(e, base, rows[k]);
    assert forall k | k in rows :: later(rows[k]) <==> Matches(e, Anywhere(base), rows[k]);
    if NoneBehind(e, base, rows, cursor) {
      assert forall k | k in rows :: k !in Strays(first, later, rows, cursor);
    } else {
      var k :| k in rows && cursor.Some? && k > cursor.value && Matches(e, Anywhere(base), rows[k])
               && !Matches(e, base, rows[k]);
      assert k in Strays(first, later, rows, cursor);
    }
  }

  // ---- The port ------------------------------------------------------------------------

  datatype PurgeError = WriteFailed

  // The rows after a call over a chunk: what landed of it is written, once each.
  function AfterChunk(s: Strategy, rows: Rows, chunk: seq<nat>, now: int, fault: Fault): Rows {
    if chunk == [] then rows else Apply(s, rows, Landed(chunk, now, fault))
  }

  lemma NoChunk(s: Strategy, rows: Rows, chunk: seq<nat>, now: int, fault: Fault)
    requires |chunk| == 0
    ensures AfterChunk(s, rows, chunk, now, fault) == rows && Answer(chunk, fault) == Ok((0, None))
  {
  }

  // What a call answers: the number of its rows and the cursor behind them.
  function Answer(chunk: seq<nat>, fault: Fault): Result<(nat, Option<nat>), PurgeError> {
    if chunk == [] then Ok((0, None))
    else if fault.Some? then Err(WriteFailed)
    else Ok((|chunk|, Some(chunk[|chunk| - 1])))
  }

  class PurgePort {
    const engine: Engine
    const base: Query
    // The collection, and the last _id whose chunk was written.
    var rows: Rows
    var cursor: Option<nat>

    constructor (engine: Engine, base: Query, rows: Rows)
      ensures this.engine == engine && this.base == base && this.rows == rows && cursor == None
    {
      this.engine, this.base, this.rows, this.cursor := engine, base, rows, None;
    }

    // One chunk: its rows are each written once and the cursor moves to the last of them; if
    // the write throws, part of them may be written and the cursor stays.
    method PurgeChunk(strategy: Strategy, limit: nat, now: int, fault: Fault) returns (r: Result<nat, PurgeError>)
      requires Identified(rows)
      modifies `rows, `cursor
      ensures
        var chunk := Selected(engine, old(rows), base, old(cursor), limit);
        && r == (if chunk == [] || fault.None? then Ok(|chunk|) else Err(WriteFailed))
        && cursor == if chunk == [] || fault.Some? then old(cursor) else Some(chunk[|chunk| - 1])
      ensures rows == AfterChunk(strategy, old(rows), Selected(engine, old(rows), base, old(cursor), limit), now, fault)
    {
      if IsFunctional(strategy) {
        var done := PurgeAnonymizeFunctional(strategy, limit, now, fault);
        if done.Err? {
          return Err(WriteFailed);
        }
        if done.value.1.Some? {
          cursor := done.value.1;
        }
        return Ok(done.value.0);
      }
      var ids := Selected(engine, rows, base, cursor, limit);
      if |ids| == 0 {
        return Ok(0);
      }
      NarrowedToSelected(engine, rows, base, cursor, limit, strategy, now, fault);
      rows := WriteMany(engine, rows, NarrowToIds(base, ids), strategy, now, fault);
      if fault.Some? {
        return Err(WriteFailed);
      }
      cursor := Some(ids[|ids| - 1]);
      return Ok(|ids|);
    }

    // The selected documents are read, and an update for each goes into one unordered bulk write.
    method WriteEach(ids: seq<nat>, strategy: Strategy, now: int, fault: Fault)
      requires !strategy.Hard? && AscendingIn(rows, ids)
      modifies `rows
      ensures rows == AfterChunk(strategy, old(rows), ids, now, fault)
    {
      var docs := Fetched(rows, ids);
      var after := BulkWrite(rows, Operations(strategy, ids, docs, now), fault);
      FunctionalOnSelected(rows, strategy, now, fault, ids, after);
      rows := after;
    }

    // The ids of the next chunk.
    method SelectChunk(limit: nat) returns (ids: seq<nat>)
      requires Identified(rows)
      ensures ids == Selected(engine, rows, base, cursor, limit) && AscendingIn(rows, ids)
    {
      ids := Selected(engine, rows, base, cursor, limit);
      SelectedAscends(engine, rows, base, cursor, limit);
    }

    method PurgeAnonymizeFunctional(strategy: Strategy, limit: nat, now: int, fault: Fault)
      returns (r: Result<(nat, Option<nat>), PurgeError>)
      requires Identified(rows) && !strategy.Hard?
      modifies `rows
      ensures r == Answer(Selected(engine, old(rows), base, cursor, limit), fault)
      ensures rows == AfterChunk(strategy, old(rows), Selected(engine, old(rows), base, cursor, limit), now, fault)
    {
      var ids := SelectChunk(limit);
      if |ids| == 0 {
        NoChunk(strategy, rows, ids, now, fault);
        return Ok((0, None));
      }
      WriteEach(ids, strategy, now, fault);
      if fault.Some? {
        return Err(WriteFailed);
      }
      return Ok((|ids|, Some(ids[|ids| - 1])));
    }

    // One call of a run that ends in `end`: it is there, or goes on from q with less left to do.
    method Call(strategy: Strategy, limit: nat, clock: nat -> int, calls: nat, pending: seq<Fault>,
                ghost first: Doc -> bool, ghost later: Doc -> bool, ghost p: Progress, ghost end: Progress)
      returns (r: Result<nat, PurgeError>, ghost q: Progress)
      requires Identified(rows) && KeepsId(strategy)
      requires Selects(engine, base, first) && Selects(engine, Anywhere(base), later)
      requires p.rows == rows && p.cursor == cursor
      requires EndsIn(first, later, strategy, limit, clock, calls, pending, p, end)
      modifies `rows, `cursor
      ensures Identified(rows) && q.rows == rows && q.cursor == cursor
      ensures q.total == p.total + if r.Ok? then r.value else 0
      ensures r == Ok(0) ==> q == end
      ensures r != Ok(0) ==> EndsIn(first, later, strategy, limit, clock, calls + 1, Others(pending), q, end)
      ensures r != Ok(0) && pending == [] ==> Advances(later, p, q)
    {
      ghost var ids := Selected(engine, rows, base, cursor, limit);
      r := PurgeChunk(strategy, limit, clock(calls), First(pending));
      CallIsAttempt(engine, base, first, later, strategy, limit, clock, calls, pending, p, ids, rows, cursor);
      q := if ids == [] then p else AfterCall(p, ids, clock(calls), First(pending), rows, cursor);
    }

    // The port called until a chunk comes back empty: it stops, through any throws, and its
    // run is the one specified for the rows its filter selects.
    method Run(strategy: Strategy, limit: nat, clock: nat -> int, faults: seq<Fault>,
               ghost first: Doc -> bool, ghost later: Doc -> bool)
      returns (total: nat, ghost log: Log)
      requires Identified(rows) && KeepsId(strategy) && cursor == None
      requires Selects(engine, base, first) && Selects(engine, Anywhere(base), later)
      modifies `rows, `cursor
      ensures Progress(rows, cursor, log, total)
        == RunPort(first, later, strategy, limit, clock, 0, faults, Progress(old(rows), None, map[], 0))
    {
      ghost var p := Progress(rows, None, map[], 0);
      ghost var end := RunPort(first, later, strategy, limit, clock, 0, faults, p);
      total := 0;
      var calls, pending, done := 0, faults, false;
      while !done
        invariant Identified(rows)
        invariant p.rows == rows && p.cursor == cursor && p.total == total
        invariant if done then p == end else EndsIn(first, later, strategy, limit, clock, calls, pending, p, end)
        decreases !done, |pending|, p.cursor.None?, |Left(later, p)|
      {
        var r;
        r, p := Call(strategy, limit, clock, calls, pending, first, later, p, end);
        if r.Ok? {
          total := total + r.value;
        }
        done := r == Ok(0);
        calls, pending := calls + 1, Others(pending);
      }
      log := p.log;
    }
  }

  function CohortAt(first: Doc -> bool, later: Doc -> bool, cursor: Option<nat>): Doc -> bool {
    if cursor.None? then first else later
  }

  // The run from wherever it is.
  function RunOn(first: Doc -> bool, later: Doc -> bool, s: Strategy, limit: nat, clock: nat -> int, calls: nat,
                 faults: seq<Fault>, p: Progress): Progress
  {
    if p.cursor.None? then RunPort(first, later, s, limit, clock, calls, faults, p)
    else RunAll(later, s, limit, clock, calls, faults, p)
  }

  // From p, with the calls that remain, the run ends in `end`.
  ghost predicate EndsIn(first: Doc -> bool, later: Doc -> bool, s: Strategy, limit: nat, clock: nat -> int,
                         calls: nat, faults: seq<Fault>, p: Progress, end: Progress)
  {
    RunOn(first, later, s, limit, clock, calls, faults, p) == end
  }

  // There is less left to do.
  ghost predicate Advances(later: Doc -> bool, p: Progress, q: Progress) {
    q.cursor.Some? && (p.cursor.Some? ==> |Left(later, q)| < |Left(later, p)|)
  }

  // One call of the port is one attempt of the run.
  lemma CallIsAttempt(e: Engine, base: Query, first: Doc -> bool, later: Doc -> bool, s: Strategy, limit: nat,
                      clock: nat -> int, calls: nat, faults: seq<Fault>, p: Progress, ids: seq<nat>, rows: Rows,
                      cursor: Option<nat>)
    requires Identified(p.rows) && KeepsId(s)
    requires Selects(e, base, first) && Selects(e, Anywhere(base), later)
    requires ids == Selected(e, p.rows, base, p.cursor, limit)
    requires rows == AfterChunk(s, p.rows, ids, clock(calls), First(faults))
    requires ids != [] ==> cursor == if First(faults).None? then Some(ids[|ids| - 1]) else p.cursor
    ensures ids == [] ==> RunOn(first, later, s, limit, clock, calls, faults, p) == p
    ensures ids != [] ==> Identified(rows)
    ensures ids != [] ==>
      Continues(first, later, s, limit, clock, calls, faults, p,
                AfterCall(p, ids, clock(calls), First(faults), rows, cursor))
  {
    SelectedIsChunk(e, p.rows, base, p.cursor, limit, CohortAt(first, later, p.cursor));
    ChunkIsAttempt(first, later, s, limit, clock, calls, faults, p, ids, rows, cursor);
    if ids != [] {
      ApplyKeepsIds(s, p.rows, Landed(ids, clock(calls), First(faults)));
    }
  }

  function AfterCall(p: Progress, ids: seq<nat>, now: int, fault: Fault, rows: Rows, cursor: Option<nat>): Progress {
    Progress(rows, cursor, Logged(p.log, Landed(ids, now, fault)), p.total + if fault.None? then |ids| else 0)
  }

  // The run goes on from q, with less left to do.
  ghost predicate Continues(first: Doc -> bool, later: Doc -> bool, s: Strategy, limit: nat, clock: nat -> int,
                            calls: nat, faults: seq<Fault>, p: Progress, q: Progress)
  {
    && RunOn(first, later, s, limit, clock, calls, faults, p)
       == RunOn(first, later, s, limit, clock, calls + 1, Others(faults), q)
    && (faults == [] ==> Advances(later, p, q))
  }

  lemma ChunkIsAttempt(first: Doc -> bool, later: Doc -> bool, s: Strategy, limit: nat, clock: nat -> int, calls: nat,
                       faults: seq<Fault>, p: Progress, ids: seq<nat>, rows: Rows, cursor: Option<nat>)
    requires ids == Chunk(p.rows, CohortAt(first, later, p.cursor), p.cursor, limit)
    requires ids != [] ==> rows == Apply(s, p.rows, Landed(ids, clock(calls), First(faults)))
    requires ids != [] ==> cursor == if First(faults).None? then Some(ids[|ids| - 1]) else p.cursor
    ensures ids == [] ==> RunOn(first, later, s, limit, clock, calls, faults, p) == p
    ensures ids != [] ==>
      Continues(first, later, s, limit, clock, calls, faults, p,
                AfterCall(p, ids, clock(calls), First(faults), rows, cursor))
  {
    var cohort := CohortAt(first, later, p.cursor);
    ChunkIsInitial(p.rows, cohort, p.cursor, limit);
    if ids != [] {
      CallAttempts(cohort, s, limit, clock(calls), First(faults), p, rows, cursor);
      AttemptContinues(first, later, s, limit, clock, calls, faults, p);
    }
  }

  lemma AttemptContinues(first: Doc -> bool, later: Doc -> bool, s: Strategy, limit: nat, clock: nat -> int,
                         calls: nat, faults: seq<Fault>, p: Progress)
    requires Left(CohortAt(first, later, p.cursor), p) != {}
    ensures Continues(first, later, s, limit, clock, calls, faults, p,
                      Attempt(CohortAt(first, later, p.cursor), s, limit, clock(calls), First(faults), p))
  {
    ChunkIsInitial(p.rows, CohortAt(first, later, p.cursor), p.cursor, limit);
    if p.cursor.Some? {
      AttemptShrinks(later, s, limit, clock(calls), p);
    }
  }

  lemma CallAttempts(cohort: Doc -> bool, s: Strategy, limit: nat, now: int, fault: Fault, p: Progress, rows: Rows,
                     cursor: Option<nat>)
    requires
      var ids := Chunk(p.rows, cohort, p.cursor, limit);
      && ids != [] && rows == Apply(s, p.rows, Landed(ids, now, fault))
      && cursor == if fault.None? then Some(ids[|ids| - 1]) else p.cursor
    ensures AfterCall(p, Chunk(p.rows, cohort, p.cursor, limit), now, fault, rows, cursor)
      == Attempt(cohort, s, limit, now, fault, p)
  {
  }

  // ---- A replacer applied twice ------------------------------------------------------------

  const NAMED: Doc := map["_id" := Oid(1), "name" := Str("")]

  function Longer(d: Doc): Value {
    Str((if Read(d, "name").Str? then Read(d, "name").s else "") + "x")
  }

  const LENGTHEN := Anonymize(map["name" := Computed(Longer)])

  lemma OnlyRowSelected(e: Engine, d: Doc, limit: nat)
    requires Read(d, "_id") == Oid(1)
    ensures Selected(e, map[1 := d], EVERYTHING, None, limit) == [1]
  {
    var rows: Rows := map[1 := d];
    var cohort := CohortExists(e, EVERYTHING);
    assert Matches(e, EVERYTHING, d);
    SelectedIsChunk(e, rows, EVERYTHING, None, limit, cohort);
    assert Rest(rows, cohort, None) == {1};
    assert Ascending({1}) == [1] by {
      assert Least({1}) == 1 && {1} - {1} == {};
    }
  }

  const ONCE: Doc := NAMED["name" := Str("x")]
  const TWICE: Doc := NAMED["name" := Str("xx")]

  lemma Lengthens(d: Doc, longer: Doc, fault: Fault)
    requires (d == NAMED && longer == ONCE) || (d == ONCE && longer == TWICE)
    requires Lands(fault, 1)
    ensures Apply(LENGTHEN, map[1 := d], Landed([1], 0, fault)) == map[1 := longer]
  {
    assert Longer(d) == longer["name"] by {
      assert "" + "x" == "x" && "x" + "x" == "xx";
    }
    assert Patch(LENGTHEN, d, 0) == map["name" := longer["name"]];
    assert d + map["name" := longer["name"]] == longer;
  }

  // The bulk write reaches the row and throws; the retry applies the replacer to its own result.
  method ReplacerAppliedTwice(e: Engine, limit: nat) returns (rows: Rows)
    ensures rows == map[1 := TWICE]
  {
    var port := new PurgePort(e, EVERYTHING, map[1 := NAMED]);
    OnlyRowSelected(e, NAMED, limit);
    Lengthens(NAMED, ONCE, Some({1}));
    var thrown := port.PurgeChunk(LENGTHEN, limit, 0, Some({1}));
    OnlyRowSelected(e, ONCE, limit);
    Lengthens(ONCE, TWICE, None);
    var retried := port.PurgeChunk(LENGTHEN, limit, 0, None);
    rows := port.rows;
  }
}

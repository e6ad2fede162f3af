// Cascade delete: deleting a row runs, through hooks, over the relation graph of the
// models, which may be cyclic. Rows live in one map from (model, id) to the foreign keys
// the row stores; every driver call is one step on that map.

module CascadeModel {
  type ModelName = string
  type Field = string
  type Id = nat

  // The foreign keys a document stores. A cleared foreign key is an absent field.
  type Doc = map<Field, Id>

  datatype Key = Key(model: ModelName, id: Id)

  type Rows = map<Key, Doc>

  datatype OnDelete = Cascade | Detach | Restrict

  // Declared on the parent's repository.
  datatype Relation = Relation(target: ModelName, foreignKey: Field, onDelete: OnDelete)

  datatype Plugin = Plugin(relations: seq<Relation>, batchSize: nat)

  type Config = map<ModelName, Plugin>

  // What the plugin's constructor enforces.
  predicate ValidConfig(cfg: Config) {
    forall m | m in cfg :: cfg[m].relations != [] && cfg[m].batchSize >= 1
  }

  function RelationsOf(cfg: Config, m: ModelName): seq<Relation> {
    if m in cfg then cfg[m].relations else []
  }

  type Query = (Id, Doc) -> bool

  // { [foreignKey]: { $in: ids } }; the single-parent form { [foreignKey]: id } is the
  // one-element case.
  function FkIn(f: Field, ids: seq<Id>): Query {
    (id, d: Doc) => f in d && d[f] in ids
  }

  function Matching(rows: Rows, m: ModelName, q: Query): set<Key> {
    set k | k in rows && k.model == m && q(k.id, rows[k])
  }

  ghost predicate Refers(rows: Rows, k: Key, f: Field, x: Id) {
    k in rows && f in rows[k] && rows[k][f] == x
  }

  // A cascade relation acts unless the same parent also detaches that key: detaches run first.
  predicate Cascades(cfg: Config, m: ModelName, t: ModelName, f: Field) {
    && Relation(t, f, Cascade) in RelationsOf(cfg, m)
    && Relation(t, f, Detach) !in RelationsOf(cfg, m)
  }

  // b is a row that a cascade relation of a's model deletes when a goes.
  ghost predicate Edge(cfg: Config, rows: Rows, a: Key, b: Key) {
    exists f :: Refers(rows, b, f, a.id) && Cascades(cfg, a.model, b.model, f)
  }

  ghost predicate NoRefsVia(rows: Rows, r: Relation, ids: seq<Id>) {
    forall k: Key, x | x in ids && k.model == r.target :: !Refers(rows, k, r.foreignKey, x)
  }

  ghost predicate NoRefsTo(cfg: Config, rows: Rows, a: Key) {
    forall r | r in RelationsOf(cfg, a.model) :: NoRefsVia(rows, r, [a.id])
  }

  // A stored reference to a parent row that is not there.
  ghost predicate NoDangling(cfg: Config, rows: Rows) {
    forall m, r, k: Key, x |
      r in RelationsOf(cfg, m) && k.model == r.target && Refers(rows, k, r.foreignKey, x)
      :: Key(m, x) in rows
  }

  // A restrict relation still has a referencing row.
  ghost predicate RestrictReferenced(cfg: Config, rows: Rows, a: Key) {
    exists r | r in RelationsOf(cfg, a.model) && r.onDelete == Restrict :: !NoRefsVia(rows, r, [a.id])
  }

  // Only detach relations of removed parents clear fields.
  ghost predicate ClearedByDetach(cfg: Config, after: Rows, k: Key, f: Field, x: Id) {
    exists m :: Relation(k.model, f, Detach) in RelationsOf(cfg, m) && Key(m, x) !in after
  }

  // No row is added, no reference is added or redirected, and a reference disappears from a
  // surviving row only because a detach relation's parent is gone.
  ghost predicate Shrinks(cfg: Config, before: Rows, after: Rows) {
    && after.Keys <= before.Keys
    && (forall k: Key, f | k in after && f in after[k] :: f in before[k] && before[k][f] == after[k][f])
    && (forall k: Key, f | k in after && f in before[k] && f !in after[k]
          :: ClearedByDetach(cfg, after, k, f, before[k][f]))
  }

  // Nothing refers any more to a row that went.
  ghost predicate Settled(cfg: Config, before: Rows, after: Rows) {
    forall a | a in before && a !in after :: NoRefsTo(cfg, after, a)
  }

  ghost predicate Closed(cfg: Config, rows: Rows, c: iset<Key>) {
    forall a, b | a in c && Edge(cfg, rows, a, b) :: b in c
  }

  ghost predicate RemovedWithin(before: Rows, after: Rows, c: iset<Key>) {
    forall k | k in before && k !in after :: k in c
  }

  // Cascade reachability in the graph as it was before the call.
  ghost predicate CascadePath(cfg: Config, rows: Rows, p: seq<Key>) {
    forall i | 0 <= i < |p| - 1 :: Edge(cfg, rows, p[i], p[i + 1])
  }

  ghost predicate Reachable(cfg: Config, rows: Rows, seeds: set<Key>, k: Key) {
    exists p: seq<Key> :: |p| > 0 && p[0] in seeds && p[|p| - 1] == k && CascadePath(cfg, rows, p)
  }

  // No foreign key that one model cascades along is detached by another.
  ghost predicate OnePolicyPerKey(cfg: Config) {
    forall m, n, t, f | Cascades(cfg, m, t, f) :: Relation(t, f, Detach) !in RelationsOf(cfg, n)
  }

  // No row the deletion can reach is still referenced through a restrict relation.
  ghost predicate Unrestricted(cfg: Config, rows: Rows, seeds: set<Key>) {
    forall a | Reachable(cfg, rows, seeds, a) :: !RestrictReferenced(cfg, rows, a)
  }

  // No reference is both cascaded from a reachable row and detached by a reachable row.
  ghost predicate Unshielded(cfg: Config, rows: Rows, seeds: set<Key>) {
    forall m, n, k: Key, f, x |
      Refers(rows, k, f, x) && Cascades(cfg, m, k.model, f) && Relation(k.model, f, Detach) in RelationsOf(cfg, n)
      :: !(Reachable(cfg, rows, seeds, Key(m, x)) && Reachable(cfg, rows, seeds, Key(n, x)))
  }

  // What makes the deletion exact, to be checked before the call.
  ghost predicate Separated(cfg: Config, rows: Rows, seeds: set<Key>) {
    OnePolicyPerKey(cfg) || (NoDangling(cfg, rows) && Unshielded(cfg, rows, seeds))
  }

  lemma RefersMonotone(cfg: Config, before: Rows, after: Rows, k: Key, f: Field, x: Id)
    requires Shrinks(cfg, before, after)
    requires Refers(after, k, f, x)
    ensures Refers(before, k, f, x)
  {
  }

  lemma ShrinksTransitive(cfg: Config, a: Rows, b: Rows, c: Rows)
    requires Shrinks(cfg, a, b) && Shrinks(cfg, b, c)
    ensures Shrinks(cfg, a, c)
  {
    forall k: Key, f | k in c && f in a[k] && f !in c[k]
      ensures ClearedByDetach(cfg, c, k, f, a[k][f])
    {
      if f in b[k] {
        assert ClearedByDetach(cfg, c, k, f, b[k][f]);
      } else {
        assert ClearedByDetach(cfg, b, k, f, a[k][f]);
        var m :| Relation(k.model, f, Detach) in RelationsOf(cfg, m) && Key(m, a[k][f]) !in b;
        assert Key(m, a[k][f]) !in c;
      }
    }
  }

  lemma NoRefsViaMonotone(cfg: Config, a: Rows, b: Rows, r: Relation, ids: seq<Id>)
    requires Shrinks(cfg, a, b)
    requires NoRefsVia(a, r, ids)
    ensures NoRefsVia(b, r, ids)
  {
    forall k: Key, x | x in ids && k.model == r.target
      ensures !Refers(b, k, r.foreignKey, x)
    {
      assert !Refers(a, k, r.foreignKey, x);
    }
  }

  lemma SettledTransitive(cfg: Config, a: Rows, b: Rows, c: Rows)
    requires Shrinks(cfg, b, c)
    requires Settled(cfg, a, b) && Settled(cfg, b, c)
    ensures Settled(cfg, a, c)
  {
    forall k | k in a && k !in c
      ensures NoRefsTo(cfg, c, k)
    {
      if k !in b {
        assert NoRefsTo(cfg, b, k);
        forall r | r in RelationsOf(cfg, k.model)
          ensures NoRefsVia(c, r, [k.id])
        {
          NoRefsViaMonotone(cfg, b, c, r, [k.id]);
        }
      }
    }
  }

  lemma ClosedMonotone(cfg: Config, a: Rows, b: Rows, c: iset<Key>)
    requires Shrinks(cfg, a, b)
    requires Closed(cfg, a, c)
    ensures Closed(cfg, b, c)
  {
    forall x, y | x in c && Edge(cfg, b, x, y)
      ensures y in c
    {
      var f :| Refers(b, y, f, x.id) && Cascades(cfg, x.model, y.model, f);
      RefersMonotone(cfg, a, b, y, f, x.id);
      assert Edge(cfg, a, x, y);
    }
  }

  lemma RestrictReferencedMonotone(cfg: Config, a: Rows, b: Rows, k: Key)
    requires Shrinks(cfg, a, b)
    requires RestrictReferenced(cfg, b, k)
    ensures RestrictReferenced(cfg, a, k)
  {
    var r :| r in RelationsOf(cfg, k.model) && r.onDelete == Restrict && !NoRefsVia(b, r, [k.id]);
    if NoRefsVia(a, r, [k.id]) {
      NoRefsViaMonotone(cfg, a, b, r, [k.id]);
    }
  }

  // Main result 1: a finished delete creates no dangling reference.
  lemma IntegrityPreserved(cfg: Config, before: Rows, after: Rows)
    requires Shrinks(cfg, before, after) && Settled(cfg, before, after)
    requires NoDangling(cfg, before)
    ensures NoDangling(cfg, after)
  {
    forall m, r, k: Key, x |
      r in RelationsOf(cfg, m) && k.model == r.target && Refers(after, k, r.foreignKey, x)
      ensures Key(m, x) in after
    {
      RefersMonotone(cfg, before, after, k, r.foreignKey, x);
      assert x in [x];
      assert NoRefsTo(cfg, after, Key(m, x)) ==> NoRefsVia(after, r, [x]);
    }
  }

  lemma ReachableIsClosed(cfg: Config, rows: Rows, seeds: set<Key>)
    ensures Closed(cfg, rows, iset k | Reachable(cfg, rows, seeds, k))
    ensures forall k | k in seeds :: Reachable(cfg, rows, seeds, k)
  {
    forall a, b | Reachable(cfg, rows, seeds, a) && Edge(cfg, rows, a, b)
      ensures Reachable(cfg, rows, seeds, b)
    {
      var p: seq<Key> :| |p| > 0 && p[0] in seeds && p[|p| - 1] == a && CascadePath(cfg, rows, p);
      var q := p + [b];
      assert CascadePath(cfg, rows, q);
      assert q[|q| - 1] == b;
    }
    forall k | k in seeds
      ensures Reachable(cfg, rows, seeds, k)
    {
      var p := [k];
      assert |p| > 0 && p[0] in seeds && p[|p| - 1] == k && CascadePath(cfg, rows, p);
    }
  }

  lemma {:induction false} PathStays(cfg: Config, rows: Rows, c: iset<Key>, p: seq<Key>)
    requires Closed(cfg, rows, c) && |p| > 0 && p[0] in c && CascadePath(cfg, rows, p)
    ensures p[|p| - 1] in c
    decreases |p|
  {
    if |p| > 1 {
      assert Edge(cfg, rows, p[0], p[1]);
      forall i | 0 <= i < |p[1..]| - 1 ensures Edge(cfg, rows, p[1..][i], p[1..][i + 1]) {
        assert Edge(cfg, rows, p[i + 1], p[i + 2]);
      }
      PathStays(cfg, rows, c, p[1..]);
    }
  }

  lemma ReachableStays(cfg: Config, rows: Rows, seeds: set<Key>, c: iset<Key>)
    requires Closed(cfg, rows, c) && forall k | k in seeds :: k in c
    ensures forall k | Reachable(cfg, rows, seeds, k) :: k in c
  {
    forall k | Reachable(cfg, rows, seeds, k) ensures k in c {
      var p: seq<Key> :| |p| > 0 && p[0] in seeds && p[|p| - 1] == k && CascadePath(cfg, rows, p);
      PathStays(cfg, rows, c, p);
    }
  }

  lemma ReachableMonotone(cfg: Config, before: Rows, after: Rows, seeds: set<Key>)
    requires Shrinks(cfg, before, after)
    ensures forall k | Reachable(cfg, after, seeds, k) :: Reachable(cfg, before, seeds, k)
  {
    var c := iset k | Reachable(cfg, before, seeds, k);
    ReachableIsClosed(cfg, before, seeds);
    ClosedMonotone(cfg, before, after, c);
    ReachableStays(cfg, after, seeds, c);
  }

  // No surviving row lost a reference that a row of the set cascades along.
  ghost predicate KeepsCascaded(cfg: Config, before: Rows, after: Rows, c: iset<Key>) {
    forall m, k: Key, f, x | Refers(before, k, f, x) && Cascades(cfg, m, k.model, f) && Key(m, x) in c && k in after ::
      f in after[k]
  }

  lemma SeparatedKeeps(cfg: Config, before: Rows, after: Rows, seeds: set<Key>)
    requires Shrinks(cfg, before, after) && Separated(cfg, before, seeds)
    requires RemovedWithin(before, after, iset k | Reachable(cfg, before, seeds, k))
    ensures KeepsCascaded(cfg, before, after, iset k | Reachable(cfg, before, seeds, k))
  {
    forall m, k: Key, f, x |
      Refers(before, k, f, x) && Cascades(cfg, m, k.model, f) && Reachable(cfg, before, seeds, Key(m, x)) && k in after
      ensures f in after[k]
    {
      assert !ClearedByDetach(cfg, after, k, f, x) by {
        DetachersSurvive(cfg, before, after, seeds, m, k, f, x);
      }
    }
  }

  lemma DetachersSurvive(cfg: Config, before: Rows, after: Rows, seeds: set<Key>, m: ModelName, k: Key, f: Field, x: Id)
    requires Separated(cfg, before, seeds)
    requires RemovedWithin(before, after, iset k | Reachable(cfg, before, seeds, k))
    requires Refers(before, k, f, x) && Cascades(cfg, m, k.model, f) && Reachable(cfg, before, seeds, Key(m, x))
    ensures forall n | Relation(k.model, f, Detach) in RelationsOf(cfg, n) :: Key(n, x) in after
  {
    if !OnePolicyPerKey(cfg) {
      forall n | Relation(k.model, f, Detach) in RelationsOf(cfg, n) ensures Key(n, x) in after {
        var r := Relation(k.model, f, Detach);
        assert Refers(before, k, r.foreignKey, x);
        assert Key(n, x) in before && !Reachable(cfg, before, seeds, Key(n, x));
      }
    }
  }

  lemma {:induction false} PathIsRemoved(cfg: Config, before: Rows, after: Rows, c: iset<Key>, p: seq<Key>)
    requires Shrinks(cfg, before, after) && Settled(cfg, before, after) && KeepsCascaded(cfg, before, after, c)
    requires Closed(cfg, before, c) && |p| > 0 && p[0] in c
    requires p[0] !in after && NoRefsTo(cfg, after, p[0])
    requires CascadePath(cfg, before, p)
    ensures p[|p| - 1] !in after
    decreases |p|
  {
    if |p| > 1 {
      var a, b := p[0], p[1];
      assert Edge(cfg, before, a, b);
      var f :| Refers(before, b, f, a.id) && Cascades(cfg, a.model, b.model, f);
      if b in after {
        assert a == Key(a.model, a.id);
        assert f in after[b];
        assert NoRefsVia(after, Relation(b.model, f, Cascade), [a.id]);
        assert a.id in [a.id];
        assert Refers(after, b, f, a.id);
      }
      assert NoRefsTo(cfg, after, b);
      forall i | 0 <= i < |p[1..]| - 1
        ensures Edge(cfg, before, p[1..][i], p[1..][i + 1])
      {
        assert Edge(cfg, before, p[i + 1], p[i + 2]);
      }
      PathIsRemoved(cfg, before, after, c, p[1..]);
    }
  }

  // Main result 2: exactly the reachable rows go.
  lemma RemovesExactlyReachable(cfg: Config, before: Rows, after: Rows, seeds: set<Key>)
    requires Separated(cfg, before, seeds)
    requires Shrinks(cfg, before, after) && Settled(cfg, before, after)
    requires RemovedWithin(before, after, iset k | Reachable(cfg, before, seeds, k))
    requires forall k | k in seeds :: k !in after && NoRefsTo(cfg, after, k)
    ensures forall k | k in before :: k !in after <==> Reachable(cfg, before, seeds, k)
  {
    var c := iset k | Reachable(cfg, before, seeds, k);
    SeparatedKeeps(cfg, before, after, seeds);
    ReachableIsClosed(cfg, before, seeds);
    forall k | k in before && Reachable(cfg, before, seeds, k)
      ensures k !in after
    {
      var p: seq<Key> :| |p| > 0 && p[0] in seeds && p[|p| - 1] == k && CascadePath(cfg, before, p);
      PathIsRemoved(cfg, before, after, c, p);
    }
  }

  // Main result 3: what survives is unchanged, except that a reference is cleared exactly
  // when a detach relation's parent went.
  lemma SurvivorsKeepTheirFields(cfg: Config, before: Rows, after: Rows, k: Key, f: Field)
    requires Shrinks(cfg, before, after) && Settled(cfg, before, after)
    requires NoDangling(cfg, before)
    requires k in after && f in before[k]
    ensures f in after[k] ==> after[k][f] == before[k][f]
    ensures f !in after[k] <==> ClearedByDetach(cfg, after, k, f, before[k][f])
  {
    if ClearedByDetach(cfg, after, k, f, before[k][f]) {
      var x := before[k][f];
      var m :| Relation(k.model, f, Detach) in RelationsOf(cfg, m) && Key(m, x) !in after;
      var r := Relation(k.model, f, Detach);
      assert Refers(before, k, r.foreignKey, x);
      assert Key(m, x) in before;
      assert NoRefsTo(cfg, after, Key(m, x));
      assert NoRefsVia(after, r, [x]);
      assert x in [x];
      assert !Refers(after, k, f, x);
    }
  }
}

module Cascade {
  import opened CascadeModel

  datatype Outcome =
    | Done(count: nat)
    | Refused(referencedBy: ModelName, foreignKey: Field, references: nat)

  function Of(relations: seq<Relation>, policy: OnDelete): seq<Relation> {
    if relations == [] then []
    else (if relations[0].onDelete == policy then [relations[0]] else []) + Of(relations[1..], policy)
  }

  lemma OfMembers(relations: seq<Relation>, policy: OnDelete)
    ensures forall r :: r in Of(relations, policy) <==> r in relations && r.onDelete == policy
  {
  }

  lemma SubsetIsSmaller(a: Rows, b: Rows)
    requires a.Keys <= b.Keys
    ensures |a| <= |b|
    ensures a.Keys != b.Keys ==> |a| < |b|
  {
    assert b.Keys == a.Keys + (b.Keys - a.Keys);
    assert |b.Keys| == |a.Keys| + |b.Keys - a.Keys|;
  }

  lemma ChunkOfRefs(rows: Rows, m: ModelName, f: Field, ids: seq<Id>, i: nat, j: nat)
    requires i <= j <= |ids|
    requires forall a, b | 0 <= a < b < |ids| :: ids[a] != ids[b]
    ensures |Matching(rows, m, FkIn(f, ids[..j]))|
         == |Matching(rows, m, FkIn(f, ids[..i]))| + |Matching(rows, m, FkIn(f, ids[i..j]))|
  {
    assert ids[..j] == ids[..i] + ids[i..j];
    var whole := Matching(rows, m, FkIn(f, ids[..j]));
    var left := Matching(rows, m, FkIn(f, ids[..i]));
    var right := Matching(rows, m, FkIn(f, ids[i..j]));
    assert whole == left + right;
    assert left !! right;
  }

  // detachReferences: $unset the foreign key on every row that stores one of the ids.
  function Detached(rows: Rows, r: Relation, ids: seq<Id>): Rows {
    map k | k in rows ::
      if k in Matching(rows, r.target, FkIn(r.foreignKey, ids)) then rows[k] - {r.foreignKey} else rows[k]
  }

  lemma DetachedTwice(rows: Rows, r: Relation, a: seq<Id>, b: seq<Id>)
    ensures Detached(Detached(rows, r, a), r, b) == Detached(rows, r, a + b)
  {
    var once, twice, both := Detached(rows, r, a), Detached(Detached(rows, r, a), r, b), Detached(rows, r, a + b);
    forall k | k in rows ensures twice[k] == both[k] {
      if k.model == r.target && r.foreignKey in rows[k] && rows[k][r.foreignKey] !in a {
        assert once[k] == rows[k];
      }
    }
  }

  lemma DetachedNothing(rows: Rows, r: Relation)
    ensures Detached(rows, r, []) == rows
  {
  }

  lemma DetachedShrinks(cfg: Config, rows: Rows, m: ModelName, r: Relation, ids: seq<Id>)
    requires r in RelationsOf(cfg, m) && r.onDelete == Detach
    requires forall x | x in ids :: Key(m, x) !in rows
    ensures Shrinks(cfg, rows, Detached(rows, r, ids)) && Detached(rows, r, ids).Keys == rows.Keys
    ensures NoRefsVia(Detached(rows, r, ids), r, ids)
  {
    var after := Detached(rows, r, ids);
    assert after.Keys == rows.Keys;
    forall k, f | k in after && f in rows[k] && f !in after[k]
      ensures ClearedByDetach(cfg, after, k, f, rows[k][f])
    {
      assert f == r.foreignKey && k.model == r.target && rows[k][f] in ids;
      assert r == Relation(k.model, f, Detach);
    }
  }

  function DetachedBy(rows: Rows, rs: seq<Relation>, ids: seq<Id>): Rows {
    if rs == [] then rows else DetachedBy(Detached(rows, rs[0], ids), rs[1..], ids)
  }

  lemma DetachedByUnfold(rows: Rows, rs: seq<Relation>, i: nat, ids: seq<Id>)
    requires i < |rs|
    ensures DetachedBy(rows, rs[i..], ids) == DetachedBy(Detached(rows, rs[i], ids), rs[i + 1..], ids)
  {
    assert rs[i..][1..] == rs[i + 1..];
  }

  lemma {:induction false} DetachedByShrinks(cfg: Config, rows: Rows, m: ModelName, rs: seq<Relation>, ids: seq<Id>)
    requires forall r | r in rs :: r in RelationsOf(cfg, m) && r.onDelete == Detach
    requires forall x | x in ids :: Key(m, x) !in rows
    ensures Shrinks(cfg, rows, DetachedBy(rows, rs, ids)) && DetachedBy(rows, rs, ids).Keys == rows.Keys
    ensures forall r | r in rs :: NoRefsVia(DetachedBy(rows, rs, ids), r, ids)
    decreases |rs|
  {
    if rs != [] {
      assert rs[0] in rs;
      var next := Detached(rows, rs[0], ids);
      var last := DetachedBy(next, rs[1..], ids);
      DetachedShrinks(cfg, rows, m, rs[0], ids);
      DetachedByShrinks(cfg, next, m, rs[1..], ids);
      ShrinksTransitive(cfg, rows, next, last);
      NoRefsViaMonotone(cfg, next, last, rs[0], ids);
      assert rs == [rs[0]] + rs[1..];
    }
  }

  // The store in which the cascades of a deletion start: the row gone, its own detaches done.
  function AfterOwnDetaches(cfg: Config, rows: Rows, m: ModelName, id: Id): Rows {
    DetachedBy(rows - {Key(m, id)}, Of(RelationsOf(cfg, m), Detach), [id])
  }

  lemma OwnDetachesShrink(cfg: Config, rows: Rows, m: ModelName, ids: seq<Id>)
    requires forall x | x in ids :: Key(m, x) !in rows
    ensures var after := DetachedBy(rows, Of(RelationsOf(cfg, m), Detach), ids);
      && Shrinks(cfg, rows, after) && after.Keys == rows.Keys
      && forall r | r in RelationsOf(cfg, m) && r.onDelete == Detach :: NoRefsVia(after, r, ids)
  {
    OfMembers(RelationsOf(cfg, m), Detach);
    DetachedByShrinks(cfg, rows, m, Of(RelationsOf(cfg, m), Detach), ids);
  }

  lemma BlockedByRelation(cfg: Config, rows: Rows, m: ModelName, r: Relation, ids: seq<Id>)
    requires r in RelationsOf(cfg, m) && r.onDelete == Restrict
    requires |Matching(rows, r.target, FkIn(r.foreignKey, ids))| > 0
    ensures exists x :: x in ids && RestrictReferenced(cfg, rows, Key(m, x))
  {
    var k :| k in Matching(rows, r.target, FkIn(r.foreignKey, ids));
    var x := rows[k][r.foreignKey];
    assert Refers(rows, k, r.foreignKey, x) && x in [x];
    assert !NoRefsVia(rows, r, [x]);
    assert RestrictReferenced(cfg, rows, Key(m, x));
  }

  lemma NoMatchNoRefs(rows: Rows, r: Relation, ids: seq<Id>)
    requires |Matching(rows, r.target, FkIn(r.foreignKey, ids))| == 0
    ensures NoRefsVia(rows, r, ids)
  {
    forall k: Key, x | x in ids && k.model == r.target
      ensures !Refers(rows, k, r.foreignKey, x)
    {
      assert k !in Matching(rows, r.target, FkIn(r.foreignKey, ids));
    }
  }

  lemma NothingBlocks(cfg: Config, rows: Rows, m: ModelName, ids: seq<Id>)
    requires forall r | r in RelationsOf(cfg, m) && r.onDelete == Restrict :: NoRefsVia(rows, r, ids)
    ensures forall x | x in ids :: !RestrictReferenced(cfg, rows, Key(m, x))
  {
    forall x, r | x in ids && r in RelationsOf(cfg, m) && r.onDelete == Restrict
      ensures NoRefsVia(rows, r, [x])
    {
    }
  }

  lemma RestrictReferencedSomewhere(cfg: Config, before: Rows, mid: Rows, c: iset<Key>)
    requires Shrinks(cfg, before, mid)
    requires exists a :: a in c && RestrictReferenced(cfg, mid, a)
    ensures exists a :: a in c && RestrictReferenced(cfg, before, a)
  {
    var a :| a in c && RestrictReferenced(cfg, mid, a);
    RestrictReferencedMonotone(cfg, before, mid, a);
  }

  lemma DetachedKeyIsClear(cfg: Config, before: Rows, after: Rows, m: ModelName, r: Relation, ids: seq<Id>)
    requires Shrinks(cfg, before, after)
    requires forall q | q in RelationsOf(cfg, m) && q.onDelete == Detach :: NoRefsVia(before, q, ids)
    ensures Relation(r.target, r.foreignKey, Detach) in RelationsOf(cfg, m) ==> NoRefsVia(after, r, ids)
  {
    var d := Relation(r.target, r.foreignKey, Detach);
    if d in RelationsOf(cfg, m) {
      assert NoRefsVia(before, d, ids);
      assert forall k: Key, x | x in ids && k.model == r.target :: !Refers(before, k, d.foreignKey, x);
      NoRefsViaMonotone(cfg, before, after, r, ids);
    }
  }

  lemma ChildrenWithin(cfg: Config, rows: Rows, m: ModelName, r: Relation, ids: seq<Id>, chunk: seq<Id>, c: iset<Key>)
    requires r in RelationsOf(cfg, m) && r.onDelete == Cascade
    requires Relation(r.target, r.foreignKey, Detach) in RelationsOf(cfg, m) ==> NoRefsVia(rows, r, ids)
    requires Closed(cfg, rows, c)
    requires forall x | x in ids :: Key(m, x) in c
    requires forall x | x in chunk :: x in ids
    ensures forall k | k in Matching(rows, r.target, FkIn(r.foreignKey, chunk)) :: k in c
  {
    forall k | k in Matching(rows, r.target, FkIn(r.foreignKey, chunk))
      ensures k in c
    {
      var x := rows[k][r.foreignKey];
      assert Refers(rows, k, r.foreignKey, x);
      assert r == Relation(k.model, r.foreignKey, Cascade);
      assert Edge(cfg, rows, Key(m, x), k);
    }
  }

  lemma ChildrenGone(cfg: Config, before: Rows, after: Rows, r: Relation, ids: seq<Id>)
    requires Shrinks(cfg, before, after)
    requires forall k | k in Matching(before, r.target, FkIn(r.foreignKey, ids)) :: k !in after
    ensures NoRefsVia(after, r, ids)
  {
    forall k: Key, x | x in ids && k.model == r.target
      ensures !Refers(after, k, r.foreignKey, x)
    {
      assert Refers(before, k, r.foreignKey, x) ==> k in Matching(before, r.target, FkIn(r.foreignKey, ids));
    }
  }

  // A matched child of a removed parent dangles.
  lemma OrphanDangles(cfg: Config, rows: Rows, m: ModelName, r: Relation, ids: seq<Id>)
    requires r in RelationsOf(cfg, m) && forall x | x in ids :: Key(m, x) !in rows
    requires Matching(rows, r.target, FkIn(r.foreignKey, ids)) != {}
    ensures !NoDangling(cfg, rows)
  {
    var k :| k in Matching(rows, r.target, FkIn(r.foreignKey, ids));
    assert Refers(rows, k, r.foreignKey, rows[k][r.foreignKey]);
  }

  // The relations of one policy handled so far.
  ghost predicate AllClear(rows: Rows, rs: seq<Relation>, n: nat, ids: seq<Id>) {
    n <= |rs| && forall i | 0 <= i < n :: NoRefsVia(rows, rs[i], ids)
  }

  lemma AllClearStep(cfg: Config, before: Rows, after: Rows, rs: seq<Relation>, n: nat, ids: seq<Id>)
    requires Shrinks(cfg, before, after)
    requires AllClear(before, rs, n, ids)
    requires n < |rs| && NoRefsVia(after, rs[n], ids)
    ensures AllClear(after, rs, n + 1, ids)
  {
    forall i | 0 <= i < n
      ensures NoRefsVia(after, rs[i], ids)
    {
      NoRefsViaMonotone(cfg, before, after, rs[i], ids);
    }
  }

  lemma PolicyCleared(rows: Rows, relations: seq<Relation>, policy: OnDelete, n: nat, ids: seq<Id>)
    requires n >= |Of(relations, policy)|
    requires AllClear(rows, Of(relations, policy), n, ids)
    ensures forall q | q in relations && q.onDelete == policy :: NoRefsVia(rows, q, ids)
  {
    OfMembers(relations, policy);
    forall q | q in relations && q.onDelete == policy
      ensures NoRefsVia(rows, q, ids)
    {
      var i :| 0 <= i < |Of(relations, policy)| && Of(relations, policy)[i] == q;
    }
  }

  lemma DetachedStayClear(cfg: Config, before: Rows, after: Rows, m: ModelName, ids: seq<Id>)
    requires Shrinks(cfg, before, after)
    requires forall q | q in RelationsOf(cfg, m) && q.onDelete == Detach :: NoRefsVia(before, q, ids)
    ensures forall q | q in RelationsOf(cfg, m) && q.onDelete == Detach :: NoRefsVia(after, q, ids)
  {
    forall q | q in RelationsOf(cfg, m) && q.onDelete == Detach
      ensures NoRefsVia(after, q, ids)
    {
      NoRefsViaMonotone(cfg, before, after, q, ids);
    }
  }

  lemma AllPoliciesCovered(cfg: Config, before: Rows, after: Rows, m: ModelName, ids: seq<Id>)
    requires Shrinks(cfg, before, after)
    requires forall x | x in ids :: !RestrictReferenced(cfg, before, Key(m, x))
    requires forall q | q in RelationsOf(cfg, m) && q.onDelete != Restrict :: NoRefsVia(after, q, ids)
    ensures forall x | x in ids :: NoRefsTo(cfg, after, Key(m, x))
  {
    forall x, q | x in ids && q in RelationsOf(cfg, m)
      ensures NoRefsVia(after, q, [x])
    {
      if q.onDelete == Restrict {
        assert NoRefsVia(before, q, [x]);
        NoRefsViaMonotone(cfg, before, after, q, [x]);
      }
    }
  }

  lemma MatchedIds(doomed: set<Key>, m: ModelName, ids: seq<Id>)
    requires forall k | k in doomed :: k.model == m
    requires forall x :: x in ids <==> Key(m, x) in doomed
    ensures forall k :: k in doomed <==> k.model == m && k.id in ids
  {
    forall k
      ensures k in doomed <==> k.model == m && k.id in ids
    {
      assert k == Key(k.model, k.id);
    }
  }

  lemma RemovalShrinks(cfg: Config, before: Rows, after: Rows)
    requires after.Keys <= before.Keys && forall k | k in after :: after[k] == before[k]
    ensures Shrinks(cfg, before, after)
  {
  }

  lemma StillUnblocked(cfg: Config, before: Rows, after: Rows, m: ModelName, ids: seq<Id>)
    requires Shrinks(cfg, before, after)
    requires forall x | x in ids :: !RestrictReferenced(cfg, before, Key(m, x))
    ensures forall x | x in ids :: !RestrictReferenced(cfg, after, Key(m, x))
  {
    forall x | x in ids && RestrictReferenced(cfg, after, Key(m, x))
      ensures false
    {
      RestrictReferencedMonotone(cfg, before, after, Key(m, x));
    }
  }

  lemma SettledAfterRemoval(cfg: Config, before: Rows, mid: Rows, after: Rows, m: ModelName, ids: seq<Id>)
    requires Settled(cfg, mid, after)
    requires forall k | k in before && k !in mid :: k.model == m && k.id in ids
    requires forall x | x in ids :: NoRefsTo(cfg, after, Key(m, x))
    ensures Settled(cfg, before, after)
  {
    forall k | k in before && k !in after
      ensures NoRefsTo(cfg, after, k)
    {
      if k !in mid {
        assert k == Key(m, k.id);
      }
    }
  }

  lemma ConcludeDelete(cfg: Config, before: Rows, after: Rows, seeds: set<Key>)
    requires Shrinks(cfg, before, after) && Settled(cfg, before, after)
    requires RemovedWithin(before, after, iset k | Reachable(cfg, before, seeds, k))
    requires forall k | k in seeds :: k !in after && NoRefsTo(cfg, after, k)
    ensures NoDangling(cfg, before) ==> NoDangling(cfg, after)
    ensures Separated(cfg, before, seeds) ==>
      forall k | k in before :: k !in after <==> Reachable(cfg, before, seeds, k)
  {
    if NoDangling(cfg, before) {
      IntegrityPreserved(cfg, before, after);
    }
    if Separated(cfg, before, seeds) {
      RemovesExactlyReachable(cfg, before, after, seeds);
    }
  }

  lemma OwnDetachesReachLess(cfg: Config, rows: Rows, m: ModelName, id: Id, c: iset<Key>)
    requires ReachedFrom(cfg, AfterOwnDetaches(cfg, rows, m, id), {Key(m, id)}, c)
    ensures ReachedFrom(cfg, rows, {Key(m, id)}, c)
  {
    var mid := rows - {Key(m, id)};
    RemovalShrinks(cfg, rows, mid);
    OwnDetachesShrink(cfg, mid, m, [id]);
    ShrinksTransitive(cfg, rows, mid, AfterOwnDetaches(cfg, rows, m, id));
    ReachableMonotone(cfg, rows, AfterOwnDetaches(cfg, rows, m, id), {Key(m, id)});
  }

  ghost predicate ReachedFrom(cfg: Config, rows: Rows, seeds: set<Key>, c: iset<Key>) {
    forall k | k in c :: Reachable(cfg, rows, seeds, k)
  }

  // Whatever cascades to the row is a reference to the deleted row that this one detaches, or
  // one to a row out of reach.
  ghost predicate DetachedFirst(cfg: Config, rows: Rows, m: ModelName, id: Id, k: Key) {
    && k != Key(m, id)
    && forall n, f, x |
         Refers(rows, k, f, x) && Cascades(cfg, n, k.model, f) && Reachable(cfg, rows, {Key(m, id)}, Key(n, x)) ::
         x == id && Relation(k.model, f, Detach) in RelationsOf(cfg, m)
  }

  // Once those references are gone, such a row is out of reach.
  lemma DetachedFirstIsUnreached(cfg: Config, rows: Rows, m: ModelName, id: Id, k: Key)
    requires DetachedFirst(cfg, rows, m, id, k)
    ensures !Reachable(cfg, AfterOwnDetaches(cfg, rows, m, id), {Key(m, id)}, k)
  {
    var seeds, store := {Key(m, id)}, AfterOwnDetaches(cfg, rows, m, id);
    var reached := ReachableSet(cfg, store, seeds);
    forall a | a in reached ensures !Edge(cfg, store, a, k) {
      OwnDetachesCut(cfg, rows, m, id, reached, a, k);
    }
    WithoutStaysClosed(cfg, store, reached, k);
    ReachableStays(cfg, store, seeds, reached - iset{k});
  }

  lemma WithoutStaysClosed(cfg: Config, rows: Rows, c: iset<Key>, k: Key)
    requires Closed(cfg, rows, c) && forall a | a in c :: !Edge(cfg, rows, a, k)
    ensures Closed(cfg, rows, c - iset{k})
  {
  }

  lemma OwnDetachesCut(cfg: Config, rows: Rows, m: ModelName, id: Id, reached: iset<Key>, a: Key, k: Key)
    requires DetachedFirst(cfg, rows, m, id, k) && a in reached
    requires ReachedFrom(cfg, AfterOwnDetaches(cfg, rows, m, id), {Key(m, id)}, reached)
    ensures !Edge(cfg, AfterOwnDetaches(cfg, rows, m, id), a, k)
  {
    var mid := rows - {Key(m, id)};
    RemovalShrinks(cfg, rows, mid);
    OwnDetachesShrink(cfg, mid, m, [id]);
    ShrinksTransitive(cfg, rows, mid, AfterOwnDetaches(cfg, rows, m, id));
    OwnDetachesReachLess(cfg, rows, m, id, reached);
    NoEdgeToDetached(cfg, rows, AfterOwnDetaches(cfg, rows, m, id), m, id, a, k);
  }

  lemma NoEdgeToDetached(cfg: Config, rows: Rows, store: Rows, m: ModelName, id: Id, a: Key, k: Key)
    requires DetachedFirst(cfg, rows, m, id, k) && Shrinks(cfg, rows, store)
    requires forall r | r in RelationsOf(cfg, m) && r.onDelete == Detach :: NoRefsVia(store, r, [id])
    requires Reachable(cfg, rows, {Key(m, id)}, a)
    ensures !Edge(cfg, store, a, k)
  {
    assert id in [id] && a == Key(a.model, a.id);
    forall f | Cascades(cfg, a.model, k.model, f) ensures !Refers(store, k, f, a.id) {
      if Refers(rows, k, f, a.id) {
        assert NoRefsVia(store, Relation(k.model, f, Detach), [id]);
      }
    }
  }

  lemma DetachedFirstStay(cfg: Config, before: Rows, after: Rows, m: ModelName, id: Id)
    requires RemovedWithin(before, after,
               iset k | Reachable(cfg, AfterOwnDetaches(cfg, before, m, id), {Key(m, id)}, k))
    ensures forall k | k in before && DetachedFirst(cfg, before, m, id, k) :: k in after
  {
    forall k | k in before && DetachedFirst(cfg, before, m, id, k) ensures k in after {
      DetachedFirstIsUnreached(cfg, before, m, id, k);
    }
  }

  // What a finished deletion of one row removed, and why an unfinished one was refused.
  lemma ConcludeOwnDelete(cfg: Config, before: Rows, after: Rows, m: ModelName, id: Id, c: iset<Key>)
    requires Shrinks(cfg, before, after) && RemovedWithin(before, after, c)
    requires ReachedFrom(cfg, AfterOwnDetaches(cfg, before, m, id), {Key(m, id)}, c)
    ensures RemovedWithin(before, after,
              iset k | Reachable(cfg, AfterOwnDetaches(cfg, before, m, id), {Key(m, id)}, k))
    ensures RemovedWithin(before, after, iset k | Reachable(cfg, before, {Key(m, id)}, k))
    ensures Unrestricted(cfg, before, {Key(m, id)}) ==> forall a | a in c :: !RestrictReferenced(cfg, before, a)
  {
    OwnDetachesReachLess(cfg, before, m, id, c);
  }

  lemma RemovedThenWithin(before: Rows, after: Rows, k: Key, c: iset<Key>)
    requires RemovedWithin(before - {k}, after, c) && k in c
    ensures RemovedWithin(before, after, c)
  {
  }

  // The same with the closed set kept abstract.
  lemma ReachableSet(cfg: Config, rows: Rows, seeds: set<Key>) returns (c: iset<Key>)
    ensures Closed(cfg, rows, c)
    ensures forall k | k in seeds :: k in c
    ensures ReachedFrom(cfg, rows, seeds, c)
  {
    c := iset k | Reachable(cfg, rows, seeds, k);
    ReachableIsClosed(cfg, rows, seeds);
  }

  class Database {
    const cfg: Config
    var rows: Rows

    constructor (cfg: Config, rows: Rows)
      ensures this.cfg == cfg && this.rows == rows
    {
      this.cfg, this.rows := cfg, rows;
    }

    // The driver cursor yields the matching ids in an order of its own.
    method CollectIds(m: ModelName, q: Query) returns (ids: seq<Id>)
      ensures forall x :: x in ids <==> Key(m, x) in Matching(rows, m, q)
      ensures forall a, b | 0 <= a < b < |ids| :: ids[a] != ids[b]
      ensures |ids| == |Matching(rows, m, q)|
    {
      var left := Matching(rows, m, q);
      ids := [];
      while left != {}
        invariant left <= Matching(rows, m, q)
        invariant forall x :: x in ids <==> Key(m, x) in Matching(rows, m, q) - left
        invariant forall a, b | 0 <= a < b < |ids| :: ids[a] != ids[b]
        invariant |ids| + |left| == |Matching(rows, m, q)|
        decreases left
      {
        var k :| k in left;
        assert k == Key(m, k.id);
        left := left - {k};
        ids := ids + [k.id];
      }
    }

    // The blocker count of one restrict relation, summed over slices.
    method CountReferencing(r: Relation, ids: seq<Id>, batchSize: nat) returns (remaining: nat)
      requires batchSize >= 1
      requires forall a, b | 0 <= a < b < |ids| :: ids[a] != ids[b]
      ensures remaining == |Matching(rows, r.target, FkIn(r.foreignKey, ids))|
    {
      remaining := 0;
      var i := 0;
      assert Matching(rows, r.target, FkIn(r.foreignKey, ids[..0])) == {};
      while i < |ids|
        invariant i <= |ids|
        invariant remaining == |Matching(rows, r.target, FkIn(r.foreignKey, ids[..i]))|
      {
        var j := if i + batchSize < |ids| then i + batchSize else |ids|;
        ChunkOfRefs(rows, r.target, r.foreignKey, ids, i, j);
        remaining := remaining + |Matching(rows, r.target, FkIn(r.foreignKey, ids[i..j]))|;
        i := j;
      }
      assert ids[..i] == ids;
    }

    // Refuse while rows still reference the doomed ids through a restrict relation.
    method CheckRestrictions(m: ModelName, ids: seq<Id>) returns (r: Outcome)
      requires ValidConfig(cfg)
      requires forall a, b | 0 <= a < b < |ids| :: ids[a] != ids[b]
      ensures r.Done? <==> forall x | x in ids :: !RestrictReferenced(cfg, rows, Key(m, x))
      ensures r.Refused? ==> Relation(r.referencedBy, r.foreignKey, Restrict) in RelationsOf(cfg, m)
      ensures r.Refused? ==> 0 < r.references == |Matching(rows, r.referencedBy, FkIn(r.foreignKey, ids))|
    {
      var restrictions := Of(RelationsOf(cfg, m), Restrict);
      OfMembers(RelationsOf(cfg, m), Restrict);
      var i := 0;
      while i < |restrictions|
        invariant AllClear(rows, restrictions, i, ids)
      {
        var rel := restrictions[i];
        var remaining := CountReferencing(rel, ids, cfg[m].batchSize);
        if remaining > 0 {
          BlockedByRelation(cfg, rows, m, rel, ids);
          return Refused(rel.target, rel.foreignKey, remaining);
        }
        NoMatchNoRefs(rows, rel, ids);
        i := i + 1;
      }
      PolicyCleared(rows, RelationsOf(cfg, m), Restrict, i, ids);
      NothingBlocks(cfg, rows, m, ids);
      return Done(0);
    }

    // $unset the foreign key on every row that references one of these ids.
    method DetachReferences(r: Relation, ids: seq<Id>)
      modifies this`rows
      ensures rows == Detached(old(rows), r, ids)
    {
      rows := Detached(rows, r, ids);
    }

    method DetachBulk(m: ModelName, r: Relation, ids: seq<Id>, batchSize: nat)
      requires batchSize >= 1
      requires r in RelationsOf(cfg, m) && r.onDelete == Detach
      requires forall x | x in ids :: Key(m, x) !in rows
      modifies this`rows
      ensures rows == Detached(old(rows), r, ids)
      ensures Shrinks(cfg, old(rows), rows) && rows.Keys == old(rows).Keys
      ensures NoRefsVia(rows, r, ids)
    {
      var i := 0;
      DetachedNothing(rows, r);
      while i < |ids|
        invariant i <= |ids|
        invariant rows == Detached(old(rows), r, ids[..i])
      {
        var j := if i + batchSize < |ids| then i + batchSize else |ids|;
        DetachedTwice(old(rows), r, ids[..i], ids[i..j]);
        DetachReferences(r, ids[i..j]);
        assert ids[..j] == ids[..i] + ids[i..j];
        i := j;
      }
      assert ids[..i] == ids;
      DetachedShrinks(cfg, old(rows), m, r, ids);
    }

    method CascadeBulk(m: ModelName, r: Relation, ids: seq<Id>, batchSize: nat, ghost c: iset<Key>)
      returns (o: Outcome)
      requires ValidConfig(cfg) && batchSize >= 1
      requires r in RelationsOf(cfg, m) && r.onDelete == Cascade
      requires Relation(r.target, r.foreignKey, Detach) in RelationsOf(cfg, m) ==> NoRefsVia(rows, r, ids)
      requires Closed(cfg, rows, c)
      requires forall x | x in ids :: Key(m, x) in c && Key(m, x) !in rows
      modifies this`rows
      ensures Shrinks(cfg, old(rows), rows) && RemovedWithin(old(rows), rows, c)
      ensures o.Done? ==> Settled(cfg, old(rows), rows) && NoRefsVia(rows, r, ids)
      ensures o.Refused? ==> exists a :: a in c && RestrictReferenced(cfg, old(rows), a)
      ensures o.Refused? ==> !NoDangling(cfg, rows)
      decreases |rows|, 2
    {
      var i := 0;
      while i < |ids|
        invariant i <= |ids|
        invariant Shrinks(cfg, old(rows), rows) && RemovedWithin(old(rows), rows, c)
        invariant Settled(cfg, old(rows), rows)
        invariant NoRefsVia(rows, r, ids[..i])
      {
        var j := if i + batchSize < |ids| then i + batchSize else |ids|;
        ghost var mid := rows;
        ClosedMonotone(cfg, old(rows), mid, c);
        SubsetIsSmaller(mid, old(rows));
        if Relation(r.target, r.foreignKey, Detach) in RelationsOf(cfg, m) {
          NoRefsViaMonotone(cfg, old(rows), mid, r, ids);
        }
        ChildrenWithin(cfg, mid, m, r, ids, ids[i..j], c);
        o := DeleteManyWithin(r.target, FkIn(r.foreignKey, ids[i..j]), c);
        ShrinksTransitive(cfg, old(rows), mid, rows);
        if o.Refused? {
          RestrictReferencedSomewhere(cfg, old(rows), mid, c);
          if rows == mid {
            OrphanDangles(cfg, mid, m, r, ids[i..j]);
          }
          return;
        }
        SettledTransitive(cfg, old(rows), mid, rows);
        ChildrenGone(cfg, mid, rows, r, ids[i..j]);
        NoRefsViaMonotone(cfg, mid, rows, r, ids[..i]);
        assert ids[..j] == ids[..i] + ids[i..j];
        i := j;
      }
      assert ids[..i] == ids;
      o := Done(0);
    }

    method DetachAll(m: ModelName, ids: seq<Id>)
      requires ValidConfig(cfg)
      requires forall x | x in ids :: Key(m, x) !in rows
      modifies this`rows
      ensures rows == DetachedBy(old(rows), Of(RelationsOf(cfg, m), Detach), ids)
      ensures Shrinks(cfg, old(rows), rows) && rows.Keys == old(rows).Keys
      ensures forall q | q in RelationsOf(cfg, m) && q.onDelete == Detach :: NoRefsVia(rows, q, ids)
    {
      var detachments := Of(RelationsOf(cfg, m), Detach);
      OfMembers(RelationsOf(cfg, m), Detach);
      var i := 0;
      while i < |detachments|
        invariant i <= |detachments|
        invariant rows.Keys == old(rows).Keys
        invariant DetachedBy(rows, detachments[i..], ids) == DetachedBy(old(rows), detachments, ids)
      {
        assert detachments[i] in detachments;
        DetachedByUnfold(rows, detachments, i, ids);
        DetachBulk(m, detachments[i], ids, cfg[m].batchSize);
        i := i + 1;
      }
      OwnDetachesShrink(cfg, old(rows), m, ids);
    }

    method CascadeAll(m: ModelName, ids: seq<Id>, ghost c: iset<Key>) returns (o: Outcome)
      requires ValidConfig(cfg)
      requires Closed(cfg, rows, c)
      requires forall x | x in ids :: Key(m, x) in c && Key(m, x) !in rows
      requires forall q | q in RelationsOf(cfg, m) && q.onDelete == Detach :: NoRefsVia(rows, q, ids)
      modifies this`rows
      ensures Shrinks(cfg, old(rows), rows) && RemovedWithin(old(rows), rows, c)
      ensures o.Done? ==> Settled(cfg, old(rows), rows)
      ensures o.Done? ==>
        forall q | q in RelationsOf(cfg, m) && q.onDelete == Cascade :: NoRefsVia(rows, q, ids)
      ensures o.Refused? ==> exists a :: a in c && RestrictReferenced(cfg, old(rows), a)
      ensures o.Refused? ==> !NoDangling(cfg, rows)
      decreases |rows|, 3
    {
      var cascades := Of(RelationsOf(cfg, m), Cascade);
      OfMembers(RelationsOf(cfg, m), Cascade);
      var i := 0;
      while i < |cascades|
        invariant Shrinks(cfg, old(rows), rows) && RemovedWithin(old(rows), rows, c)
        invariant Settled(cfg, old(rows), rows)
        invariant AllClear(rows, cascades, i, ids)
      {
        assert cascades[i] in cascades;
        ghost var mid := rows;
        ClosedMonotone(cfg, old(rows), mid, c);
        SubsetIsSmaller(mid, old(rows));
        DetachedKeyIsClear(cfg, old(rows), mid, m, cascades[i], ids);
        o := CascadeBulk(m, cascades[i], ids, cfg[m].batchSize, c);
        ShrinksTransitive(cfg, old(rows), mid, rows);
        if o.Refused? {
          RestrictReferencedSomewhere(cfg, old(rows), mid, c);
          return;
        }
        SettledTransitive(cfg, old(rows), mid, rows);
        AllClearStep(cfg, mid, rows, cascades, i, ids);
        i := i + 1;
      }
      PolicyCleared(rows, RelationsOf(cfg, m), Cascade, i, ids);
      o := Done(0);
    }

    // The after-hook: detaches first, then cascades, one relation after the other.
    method AfterDelete(m: ModelName, ids: seq<Id>, ghost c: iset<Key>) returns (o: Outcome)
      requires ValidConfig(cfg)
      requires Closed(cfg, DetachedBy(rows, Of(RelationsOf(cfg, m), Detach), ids), c)
      requires forall x | x in ids :: Key(m, x) in c && Key(m, x) !in rows
      requires forall x | x in ids :: !RestrictReferenced(cfg, rows, Key(m, x))
      modifies this`rows
      ensures Shrinks(cfg, old(rows), rows) && RemovedWithin(old(rows), rows, c)
      ensures o.Done? ==> Settled(cfg, old(rows), rows)
      ensures o.Done? ==> forall x | x in ids :: NoRefsTo(cfg, rows, Key(m, x))
      ensures o.Refused? ==> exists a :: a in c && RestrictReferenced(cfg, old(rows), a)
      ensures o.Refused? ==> !NoDangling(cfg, rows)
      decreases |rows|, 4
    {
      DetachAll(m, ids);
      ghost var mid := rows;
      o := CascadeAll(m, ids, c);
      ShrinksTransitive(cfg, old(rows), mid, rows);
      if o.Refused? {
        RestrictReferencedSomewhere(cfg, old(rows), mid, c);
        return;
      }
      DetachedStayClear(cfg, mid, rows, m, ids);
      AllPoliciesCovered(cfg, old(rows), rows, m, ids);
    }

    method DeleteManyWithin(m: ModelName, q: Query, ghost c: iset<Key>) returns (o: Outcome)
      requires ValidConfig(cfg)
      requires Closed(cfg, rows, c)
      requires forall k | k in Matching(rows, m, q) :: k in c
      modifies this`rows
      ensures Shrinks(cfg, old(rows), rows) && RemovedWithin(old(rows), rows, c)
      ensures o.Done? ==> Settled(cfg, old(rows), rows) && o.count == |Matching(old(rows), m, q)|
      ensures o.Done? ==> forall k | k in Matching(old(rows), m, q) :: k !in rows
      ensures o.Refused? ==> exists a :: a in c && RestrictReferenced(cfg, old(rows), a)
      ensures (exists k :: k in Matching(old(rows), m, q) && RestrictReferenced(cfg, old(rows), k))
        ==> o.Refused? && rows == old(rows)
      ensures o.Refused? ==> Matching(old(rows), m, q) != {} && (rows == old(rows) || !NoDangling(cfg, rows))
      decreases |rows|, 1
    {
      ghost var doomed := Matching(rows, m, q);
      var ids := CollectIds(m, q);
      MatchedIds(doomed, m, ids);
      o := CheckRestrictions(m, ids);
      if o.Refused? {
        return;
      }
      rows := rows - Matching(rows, m, q);
      RemovalShrinks(cfg, old(rows), rows);
      if ids == [] {
        return Done(0);
      }
      assert Key(m, ids[0]) in doomed;
      SubsetIsSmaller(rows, old(rows));
      ghost var mid := rows;
      ClosedMonotone(cfg, old(rows), mid, c);
      OwnDetachesShrink(cfg, mid, m, ids);
      ClosedMonotone(cfg, mid, DetachedBy(mid, Of(RelationsOf(cfg, m), Detach), ids), c);
      StillUnblocked(cfg, old(rows), mid, m, ids);
      o := AfterDelete(m, ids, c);
      ShrinksTransitive(cfg, old(rows), mid, rows);
      if o.Refused? {
        RestrictReferencedSomewhere(cfg, old(rows), mid, c);
        return;
      }
      SettledAfterRemoval(cfg, old(rows), mid, rows, m, ids);
      o := Done(|ids|);
    }

    // deleteMany(query, { mode: 'hard' }).
    method DeleteMany(m: ModelName, q: Query) returns (o: Outcome)
      requires ValidConfig(cfg)
      modifies this`rows
      ensures Shrinks(cfg, old(rows), rows)
      ensures o.Done? ==> Settled(cfg, old(rows), rows) && o.count == |Matching(old(rows), m, q)|
      ensures o.Done? && NoDangling(cfg, old(rows)) ==> NoDangling(cfg, rows)
      ensures o.Refused? ==> rows == old(rows) || !NoDangling(cfg, rows)
      ensures o.Done? && Separated(cfg, old(rows), Matching(old(rows), m, q)) ==> forall k | k in old(rows) ::
        k !in rows <==> Reachable(cfg, old(rows), Matching(old(rows), m, q), k)
      ensures Unrestricted(cfg, old(rows), Matching(old(rows), m, q)) ==> o.Done?
      ensures (exists k :: k in Matching(old(rows), m, q) && RestrictReferenced(cfg, old(rows), k))
        ==> o.Refused? && rows == old(rows)
    {
      ghost var seeds := Matching(rows, m, q);
      ghost var c := ReachableSet(cfg, rows, seeds);
      o := DeleteManyWithin(m, q, c);
      if o.Done? {
        ConcludeDelete(cfg, old(rows), rows, seeds);
      }
    }

    method DeleteWithin(m: ModelName, id: Id, ghost c: iset<Key>) returns (o: Outcome)
      requires ValidConfig(cfg)
      requires Closed(cfg, AfterOwnDetaches(cfg, rows, m, id), c) && Key(m, id) in c
      modifies this`rows
      ensures Shrinks(cfg, old(rows), rows) && RemovedWithin(old(rows), rows, c)
      ensures o.Done? ==> Settled(cfg, old(rows), rows) && NoRefsTo(cfg, rows, Key(m, id))
      ensures o.Done? ==> o.count == (if Key(m, id) in old(rows) then 1 else 0)
      ensures o.Refused? ==> exists a :: a in c && RestrictReferenced(cfg, old(rows), a)
      ensures RestrictReferenced(cfg, old(rows), Key(m, id)) ==> o.Refused? && rows == old(rows)
      ensures !RestrictReferenced(cfg, old(rows), Key(m, id)) ==> Key(m, id) !in rows
      ensures o.Refused? ==> rows == old(rows) || !NoDangling(cfg, rows)
    {
      o := CheckRestrictions(m, [id]);
      assert id in [id];
      if o.Refused? {
        return;
      }
      var found := if Key(m, id) in rows then 1 else 0;
      rows := rows - {Key(m, id)};
      RemovalShrinks(cfg, old(rows), rows);
      ghost var mid := rows;
      StillUnblocked(cfg, old(rows), mid, m, [id]);
      o := AfterDelete(m, [id], c);
      ShrinksTransitive(cfg, old(rows), mid, rows);
      RemovedThenWithin(old(rows), rows, Key(m, id), c);
      if o.Refused? {
        RestrictReferencedSomewhere(cfg, old(rows), mid, c);
        return;
      }
      SettledAfterRemoval(cfg, old(rows), mid, rows, m, [id]);
      o := Done(found);
    }

    // The same with the set of rows in reach once the row's own detaches are done.
    method DeleteReached(m: ModelName, id: Id) returns (o: Outcome, ghost c: iset<Key>)
      requires ValidConfig(cfg)
      modifies this`rows
      ensures ReachedFrom(cfg, AfterOwnDetaches(cfg, old(rows), m, id), {Key(m, id)}, c)
      ensures Shrinks(cfg, old(rows), rows) && RemovedWithin(old(rows), rows, c)
      ensures o.Done? ==> Settled(cfg, old(rows), rows) && NoRefsTo(cfg, rows, Key(m, id))
      ensures o.Done? ==> o.count == (if Key(m, id) in old(rows) then 1 else 0)
      ensures o.Refused? ==> exists a :: a in c && RestrictReferenced(cfg, old(rows), a)
      ensures RestrictReferenced(cfg, old(rows), Key(m, id)) ==> o.Refused? && rows == old(rows)
      ensures !RestrictReferenced(cfg, old(rows), Key(m, id)) ==> Key(m, id) !in rows
      ensures o.Refused? ==> rows == old(rows) || !NoDangling(cfg, rows)
    {
      c := ReachableSet(cfg, AfterOwnDetaches(cfg, rows, m, id), {Key(m, id)});
      o := DeleteWithin(m, id, c);
    }

    // delete(id, { mode: 'hard' }): the hook fires even when no row matched.
    method Delete(m: ModelName, id: Id) returns (o: Outcome)
      requires ValidConfig(cfg)
      modifies this`rows
      ensures Shrinks(cfg, old(rows), rows)
      ensures RemovedWithin(old(rows), rows,
                iset k | Reachable(cfg, AfterOwnDetaches(cfg, old(rows), m, id), {Key(m, id)}, k))
      ensures forall k | k in old(rows) && DetachedFirst(cfg, old(rows), m, id, k) :: k in rows
      ensures o.Done? ==> Settled(cfg, old(rows), rows) && NoRefsTo(cfg, rows, Key(m, id))
      ensures o.Done? ==> o.count == (if Key(m, id) in old(rows) then 1 else 0)
      ensures o.Done? && NoDangling(cfg, old(rows)) ==> NoDangling(cfg, rows)
      ensures o.Refused? ==> rows == old(rows) || !NoDangling(cfg, rows)
      ensures o.Done? && Separated(cfg, old(rows), {Key(m, id)}) ==> forall k | k in old(rows) ::
        k !in rows <==> Reachable(cfg, old(rows), {Key(m, id)}, k)
      ensures Unrestricted(cfg, old(rows), {Key(m, id)}) ==> o.Done?
      ensures RestrictReferenced(cfg, old(rows), Key(m, id)) ==> o.Refused? && rows == old(rows)
      ensures !RestrictReferenced(cfg, old(rows), Key(m, id)) ==> Key(m, id) !in rows
    {
      ghost var c;
      o, c := DeleteReached(m, id);
      ConcludeOwnDelete(cfg, old(rows), rows, m, id, c);
      DetachedFirstStay(cfg, old(rows), rows, m, id);
      if o.Done? {
        ConcludeDelete(cfg, old(rows), rows, {Key(m, id)});
      }
    }
  }

  // A customer's orders go with it, but an invoiced order refuses to go.
  function ShopConfig(): Config {
    map["customer" := Plugin([Relation("order", "customer", Cascade)], 1),
        "order" := Plugin([Relation("invoice", "order", Restrict)], 1)]
  }

  function ShopRows(): Rows {
    map[Key("customer", 1) := map[], Key("order", 1) := map["customer" := 1],
        Key("invoice", 1) := map["order" := 1]]
  }

  lemma ShopFacts()
    ensures ValidConfig(ShopConfig()) && NoDangling(ShopConfig(), ShopRows())
    ensures !RestrictReferenced(ShopConfig(), ShopRows(), Key("customer", 1))
  {
    forall m, r, k: Key, x |
      r in RelationsOf(ShopConfig(), m) && k.model == r.target && Refers(ShopRows(), k, r.foreignKey, x)
      ensures Key(m, x) in ShopRows()
    {
      if m == "customer" {
        assert r == Relation("order", "customer", Cascade);
      } else {
        assert m == "order" && r == Relation("invoice", "order", Restrict);
      }
    }
    assert RelationsOf(ShopConfig(), "customer") == [Relation("order", "customer", Cascade)];
  }

  // However the call ends, the customer is gone and the invoice keeps its reference.
  lemma CustomerGoneDangles(after: Rows)
    requires Shrinks(ShopConfig(), ShopRows(), after)
    requires Key("customer", 1) !in after && Key("invoice", 1) in after
    ensures !NoDangling(ShopConfig(), after)
    ensures !Settled(ShopConfig(), ShopRows(), after)
  {
    var cfg, order, invoice := ShopConfig(), Key("order", 1), Key("invoice", 1);
    var toOrder, toInvoice := Relation("order", "customer", Cascade), Relation("invoice", "order", Restrict);
    assert RelationsOf(cfg, "customer") == [toOrder] && RelationsOf(cfg, "order") == [toInvoice];
    assert toOrder in RelationsOf(cfg, "customer") && toInvoice in RelationsOf(cfg, "order");
    NoDetachKeepsFields(after, invoice, "order");
    assert Refers(after, invoice, "order", 1);
    if order in after {
      NoDetachKeepsFields(after, order, "customer");
      assert Refers(after, order, "customer", 1);
      assert 1 in [1] && NoRefsTo(cfg, after, Key("customer", 1)) ==> NoRefsVia(after, toOrder, [1]);
    } else {
      assert 1 in [1] && NoRefsTo(cfg, after, order) ==> NoRefsVia(after, toInvoice, [1]);
    }
  }

  lemma NoDetachKeepsFields(after: Rows, k: Key, f: Field)
    requires Shrinks(ShopConfig(), ShopRows(), after)
    requires k in after && f in ShopRows()[k]
    ensures f in after[k] && after[k][f] == ShopRows()[k][f]
  {
    assert f !in after[k] ==> ClearedByDetach(ShopConfig(), after, k, f, ShopRows()[k][f]);
  }

  lemma InvoiceKept(after: Rows)
    requires RemovedWithin(ShopRows(), after,
               iset k | Reachable(ShopConfig(), AfterOwnDetaches(ShopConfig(), ShopRows(), "customer", 1),
                                  {Key("customer", 1)}, k))
    ensures Key("invoice", 1) in after
  {
    var cfg, store := ShopConfig(), ShopRows() - {Key("customer", 1)};
    assert Of([Relation("order", "customer", Cascade)][1..], Detach) == [];
    assert AfterOwnDetaches(cfg, ShopRows(), "customer", 1) == store;
    var c := iset{Key("customer", 1), Key("order", 1)};
    ShopClosed(store);
    ReachableStays(cfg, store, {Key("customer", 1)}, c);
  }

  lemma ShopClosed(rows: Rows)
    requires rows.Keys <= {Key("order", 1), Key("invoice", 1)}
    ensures Closed(ShopConfig(), rows, iset{Key("customer", 1), Key("order", 1)})
  {
    forall m, t, f | Cascades(ShopConfig(), m, t, f) ensures m == "customer" && t == "order" {
      assert Relation(t, f, Cascade) in RelationsOf(ShopConfig(), m);
    }
  }

  // A refusal below the top level is not undone: the parent is gone and a reference dangles.
  method RefusalMidCascade() returns (after: Rows, o: Outcome)
    ensures NoDangling(ShopConfig(), ShopRows()) && !NoDangling(ShopConfig(), after)
    ensures o.Refused?
  {
    ShopFacts();
    var db := new Database(ShopConfig(), ShopRows());
    o := db.Delete("customer", 1);
    after := db.rows;
    InvoiceKept(after);
    CustomerGoneDangles(after);
  }

  // A document is owned by an organisation, which detaches it, or a team, which takes it along.
  function TeamConfig(): Config {
    map["org" := Plugin([Relation("doc", "owner", Detach), Relation("team", "org", Cascade)], 1),
        "team" := Plugin([Relation("doc", "owner", Cascade)], 1)]
  }

  function TeamRows(): Rows {
    map[Key("org", 1) := map[], Key("team", 1) := map["org" := 1], Key("doc", 1) := map["owner" := 1]]
  }

  const TEAM_PATH := [Key("org", 1), Key("team", 1), Key("doc", 1)]

  lemma TeamEdges()
    ensures CascadePath(TeamConfig(), TeamRows(), TEAM_PATH)
    ensures Cascades(TeamConfig(), "team", "doc", "owner") && Refers(TeamRows(), Key("doc", 1), "owner", 1)
    ensures Relation("doc", "owner", Detach) in RelationsOf(TeamConfig(), "org")
  {
    var cfg, rows := TeamConfig(), TeamRows();
    assert Relation("team", "org", Cascade) == RelationsOf(cfg, "org")[1];
    assert Relation("doc", "owner", Detach) == RelationsOf(cfg, "org")[0];
    assert Relation("doc", "owner", Cascade) == RelationsOf(cfg, "team")[0];
    assert Cascades(cfg, "org", "team", "org") && Cascades(cfg, "team", "doc", "owner");
    assert Refers(rows, Key("team", 1), "org", 1) && Refers(rows, Key("doc", 1), "owner", 1);
    assert Edge(cfg, rows, Key("org", 1), Key("team", 1)) && Edge(cfg, rows, Key("team", 1), Key("doc", 1));
  }

  lemma TeamReached(n: nat)
    requires 1 <= n <= 3
    ensures Reachable(TeamConfig(), TeamRows(), {Key("org", 1)}, TEAM_PATH[n - 1])
  {
    TeamEdges();
    var p := TEAM_PATH[..n];
    assert p[0] in {Key("org", 1)} && p[|p| - 1] == TEAM_PATH[n - 1];
    assert CascadePath(TeamConfig(), TeamRows(), p);
  }

  lemma TeamIsValid()
    ensures ValidConfig(TeamConfig())
  {
  }

  // Its store has integrity, but the document's key is both cascaded and detached.
  lemma TeamIsShielded()
    ensures NoDangling(TeamConfig(), TeamRows())
    ensures !OnePolicyPerKey(TeamConfig()) && !Unshielded(TeamConfig(), TeamRows(), {Key("org", 1)})
  {
    TeamIntegrity();
    TeamEdges();
    TeamReached(1);
    TeamReached(2);
  }

  lemma TeamRefers(k: Key, f: string, x: Id)
    requires Refers(TeamRows(), k, f, x)
    ensures x == 1
  {
  }

  lemma TeamHasPlugin(m: ModelName, r: Relation)
    requires r in RelationsOf(TeamConfig(), m)
    ensures Key(m, 1) in TeamRows()
  {
    assert m in TeamConfig();
  }

  lemma TeamIntegrity()
    ensures NoDangling(TeamConfig(), TeamRows())
  {
    var cfg, rows := TeamConfig(), TeamRows();
    forall m, r, k: Key, x | r in RelationsOf(cfg, m) && k.model == r.target && Refers(rows, k, r.foreignKey, x)
      ensures Key(m, x) in rows
    {
      TeamRefers(k, r.foreignKey, x);
      TeamHasPlugin(m, r);
    }
  }

  lemma TeamClosed(rows: Rows)
    requires rows.Keys <= {Key("team", 1), Key("doc", 1)} && !Refers(rows, Key("doc", 1), "owner", 1)
    ensures Closed(TeamConfig(), rows, iset{Key("org", 1), Key("team", 1)})
  {
    var cfg := TeamConfig();
    forall m, t, f | Cascades(cfg, m, t, f)
      ensures (m == "org" && t == "team") || (m == "team" && t == "doc" && f == "owner")
    {
      assert Relation(t, f, Cascade) in RelationsOf(cfg, m);
    }
  }

  // What deleting the organisation starts its cascades from: the document is no longer owned.
  lemma TeamStore()
    ensures
      var store := AfterOwnDetaches(TeamConfig(), TeamRows(), "org", 1);
      store.Keys <= {Key("team", 1), Key("doc", 1)} && !Refers(store, Key("doc", 1), "owner", 1)
  {
    var detach, cascade := Relation("doc", "owner", Detach), Relation("team", "org", Cascade);
    var rest := TeamRows() - {Key("org", 1)};
    var two := [detach, cascade];
    assert two[1..] == [cascade] && [cascade][1..] == [];
    assert Of([cascade], Detach) == [];
    assert Of(two, Detach) == [detach];
    assert RelationsOf(TeamConfig(), "org") == two;
    assert DetachedBy(rest, [detach], [1]) == Detached(rest, detach, [1]) by {
      assert [detach][1..] == [];
    }
    assert AfterOwnDetaches(TeamConfig(), TeamRows(), "org", 1) == Detached(rest, detach, [1]);
    assert detach in RelationsOf(TeamConfig(), "org") by {
      assert RelationsOf(TeamConfig(), "org")[0] == detach;
    }
    DetachedShrinks(TeamConfig(), rest, "org", detach, [1]);
    assert 1 in [1];
  }

  // Two policies on one key: deleting the organisation first detaches the document, which
  // then survives although it is reachable through the team.
  method DetachShieldsChild() returns (after: Rows)
    ensures Reachable(TeamConfig(), TeamRows(), {Key("org", 1)}, Key("doc", 1)) && Key("doc", 1) in after
  {
    TeamIsValid();
    TeamReached(3);
    var db := new Database(TeamConfig(), TeamRows());
    var o := db.Delete("org", 1);
    after := db.rows;
    DocStays(after);
  }

  lemma DocStays(after: Rows)
    requires RemovedWithin(TeamRows(), after,
               iset k | Reachable(TeamConfig(), AfterOwnDetaches(TeamConfig(), TeamRows(), "org", 1),
                                  {Key("org", 1)}, k))
    ensures Key("doc", 1) in after
  {
    var store := AfterOwnDetaches(TeamConfig(), TeamRows(), "org", 1);
    TeamStore();
    TeamClosed(store);
    ReachableStays(TeamConfig(), store, {Key("org", 1)}, iset{Key("org", 1), Key("team", 1)});
  }
}

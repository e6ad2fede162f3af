// The immutable-states guard: rows in a frozen state refuse every direct write.

module FrozenRows {
  import opened Common
  import opened CasModel
  import opened CasProtocol
  import opened RepositoryCas

  // The guarded field and its frozen states; the fingerprint of claims that may touch frozen
  // rows; how the host prints a value that is neither text nor null.
  datatype Config = Config(
    field: string,
    states: set<string>,
    tenantField: Option<string>,
    allowClaim: Option<(Id, Transition, Patch) -> bool>,
    print_: Value -> string)

  predicate IsFrozen(cfg: Config, d: Doc) {
    Read(d, cfg.field).Str? && Read(d, cfg.field).s in cfg.states
  }

  // ---- Operations ----------------------------------------------------------------------

  datatype Change = Write(u: Update) | Remove

  // The mutating operations of the repository; ById stands for update, delete, claimVersion
  // and restore, and an order of ids for a sort.
  datatype Op =
    | ById(id: Id, filter: Filter, change: Change)
    | FirstMatch(filter: Filter, u: Update, sort: Option<seq<Id>>)
    | Many(filter: Filter, change: Change)
    | Bulk(changes: seq<(Id, Change)>)
    | Claim(id: Id, t: Transition, patch: Patch, upsert: bool)
    | Insert(id: Id, doc: Doc)

  function First(rows: Rows, q: Filter, order: seq<Id>): Option<Id> {
    if order == [] then None
    else if order[0] in rows && Holds(q, rows[order[0]]) then Some(order[0])
    else First(rows, q, order[1..])
  }

  // The row after the change, None when removed; an update that fails leaves the row.
  function Changed(c: Change, d: Doc): Option<Doc> {
    match c
    case Remove => None
    case Write(u) => if Apply(u, d).Ok? then Some(Apply(u, d).value) else Some(d)
  }

  function ChangeOne(rows: Rows, id: Id, c: Change): Rows {
    if id in rows then WithRow(rows, id, Changed(c, rows[id])) else rows
  }

  function ChangeMany(rows: Rows, q: Filter, c: Change): Rows {
    map id | id in rows && !(Holds(q, rows[id]) && Changed(c, rows[id]).None?) ::
      if Holds(q, rows[id]) then Changed(c, rows[id]).value else rows[id]
  }

  function ChangeAll(rows: Rows, changes: seq<(Id, Change)>): Rows {
    if changes == [] then rows else ChangeAll(ChangeOne(rows, changes[0].0, changes[0].1), changes[1..])
  }

  // What the operation does to the rows once it is let through; `order` is the natural order.
  function Effect(rows: Rows, order: seq<Id>, op: Op): Rows {
    match op
    case ById(id, q, c) => if id in rows && Holds(q, rows[id]) then ChangeOne(rows, id, c) else rows
    case FirstMatch(q, u, sort) =>
      var target := First(rows, q, if sort.Some? then sort.value else order);
      if target.Some? then ChangeOne(rows, target.value, Write(u)) else rows
    case Many(q, c) => ChangeMany(rows, q, c)
    case Bulk(changes) => ChangeAll(rows, changes)
    case Claim(id, t, patch, upsert) => WithRow(rows, id, ClaimOutcome(rows, id, t, patch, upsert).row)
    case Insert(id, doc) => if id in rows then rows else rows[id := doc]
  }

  function ClaimOutcome(rows: Rows, id: Id, t: Transition, patch: Patch, upsert: bool): Outcome {
    if upsert then ClaimUpsertStep(RowOf(rows, id), t, patch) else ClaimStep(RowOf(rows, id), t, patch)
  }

  // ---- The guards ----------------------------------------------------------------------

  datatype Violation = Violation(id: Option<Id>, state: Option<string>)

  // scoped(): of the operation's filter only the tenant condition narrows the state lookup.
  function TenantScope(cfg: Config, q: Filter): Filter {
    Filter(map f | f in q.fields && cfg.tenantField == Some(f) :: q.fields[f], d => true)
  }

  function GuardById(cfg: Config, rows: Rows, id: Id, q: Filter): Option<Violation> {
    if id in rows && Holds(TenantScope(cfg, q), rows[id]) && IsFrozen(cfg, rows[id]) then
      Some(Violation(Some(id), Some(Read(rows[id], cfg.field).s)))
    else None
  }

  function Text(cfg: Config, v: Value): string {
    match v
    case Null => "null"
    case Str(s) => s
    case _ => cfg.print_(v)
  }

  function MemberText(cfg: Config, m: Member): string {
    match m
    case Literal(v) => Text(cfg, v)
    case Pattern(_, text) => text
  }

  predicate TouchesFrozen(cfg: Config, s: Source) {
    match s
    case One(v) => Text(cfg, v) in cfg.states
    case AnyOf(ms) => exists i | 0 <= i < |ms| :: MemberText(cfg, ms[i]) in cfg.states
    case Matching(_, text) => text in cfg.states
  }

  // A source that names its states.
  predicate NamesStates(s: Source) {
    match s
    case One(_) => true
    case AnyOf(ms) => forall i | 0 <= i < |ms| :: ms[i].Literal?
    case Matching(_, _) => false
  }

  // A source that takes the value by a pattern or an operator object.
  predicate TakesByTest(s: Source, v: Value) {
    match s
    case One(_) => false
    case AnyOf(ms) => exists i | 0 <= i < |ms| :: ms[i].Pattern? && ms[i].accepts(v)
    case Matching(accepts, _) => accepts(v)
  }

  function GuardClaim(cfg: Config, rows: Rows, id: Id, t: Transition, patch: Patch): Option<Violation> {
    var allowed := cfg.allowClaim.Some? && cfg.allowClaim.value(id, t, patch);
    if t.field == cfg.field then
      if TouchesFrozen(cfg, t.from) && !allowed then Some(Violation(Some(id), None)) else None
    else if allowed then None
    else GuardById(cfg, rows, id, ClaimFilter(t))
  }

  // ---- What the guard lets through ------------------------------------------------------

  // Every frozen row is still there, as it was.
  predicate Kept(cfg: Config, before: Rows, after: Rows) {
    forall id | id in before && IsFrozen(cfg, before[id]) :: id in after && after[id] == before[id]
  }

  predicate Passes(cfg: Config, rows: Rows, order: seq<Id>, op: Op) {
    match op
    case ById(id, q, _) => GuardById(cfg, rows, id, q).None?
    case FirstMatch(q, _, _) =>
      var doc := First(rows, q, order);
      doc.Some? ==> doc.value in rows && !IsFrozen(cfg, rows[doc.value])
    case Many(q, _) => forall id | id in rows && Holds(q, rows[id]) :: !IsFrozen(cfg, rows[id])
    case Bulk(_) => false
    case Claim(id, t, patch, _) => GuardClaim(cfg, rows, id, t, patch).None?
    case Insert(_, _) => true
  }

  // The operations the guarantee is for: no exempting fingerprint, claims that name their
  // source states as literals, and a first match that does not depend on a sort.
  predicate InScope(cfg: Config, rows: Rows, order: seq<Id>, op: Op) {
    match op
    case Claim(_, t, _, _) => cfg.allowClaim.None? && (t.field == cfg.field ==> NamesStates(t.from))
    case FirstMatch(q, _, sort) => sort.Some? ==> First(rows, q, sort.value) == First(rows, q, order)
    case _ => true
  }

  lemma ScopeHolds(cfg: Config, q: Filter, d: Doc)
    requires Holds(q, d)
    ensures Holds(TenantScope(cfg, q), d)
  {
  }

  lemma {:induction false} FirstHolds(rows: Rows, q: Filter, order: seq<Id>)
    ensures First(rows, q, order).Some? ==>
      First(rows, q, order).value in rows && Holds(q, rows[First(rows, q, order).value])
  {
    if order != [] {
      FirstHolds(rows, q, order[1..]);
    }
  }

  lemma {:induction false} FirstExists(rows: Rows, q: Filter, order: seq<Id>, id: Id)
    requires id in order && id in rows && Holds(q, rows[id])
    ensures First(rows, q, order).Some?
  {
    if id != order[0] {
      FirstExists(rows, q, order[1..], id);
    }
  }

  // A filter that matches at most one row has the same first match under every sort.
  lemma SingleMatchInScope(cfg: Config, rows: Rows, order: seq<Id>, q: Filter, u: Update, sort: seq<Id>)
    requires forall id | id in rows :: id in order && id in sort
    requires forall a, b | a in rows && b in rows && Holds(q, rows[a]) && Holds(q, rows[b]) :: a == b
    ensures InScope(cfg, rows, order, FirstMatch(q, u, Some(sort)))
  {
    var a, b := First(rows, q, order), First(rows, q, sort);
    FirstHolds(rows, q, order);
    FirstHolds(rows, q, sort);
    if a.Some? {
      FirstExists(rows, q, sort, a.value);
    } else if b.Some? {
      FirstExists(rows, q, order, b.value);
    }
  }

  // A source the guard lets through reaches a frozen state only by a test.
  lemma UntouchedTakesByTest(cfg: Config, s: Source, v: Value)
    requires !TouchesFrozen(cfg, s) && v.Str? && v.s in cfg.states
    ensures InSource(s, v) <==> TakesByTest(s, v)
  {
    if s.AnyOf? {
      forall i | 0 <= i < |s.members|
        ensures Accepts(s.members[i], v) <==> s.members[i].Pattern? && s.members[i].accepts(v)
      {
        assert MemberText(cfg, s.members[i]) !in cfg.states;
      }
    }
  }

  // A claim on the guarded field with literal sources keeps every frozen row at whatever
  // moment its write lands: the compare-and-set pins a state outside the frozen set.
  lemma LiteralClaimKeeps(cfg: Config, rows: Rows, id: Id, t: Transition, patch: Patch, upsert: bool)
    requires t.field == cfg.field && NamesStates(t.from) && !TouchesFrozen(cfg, t.from)
    ensures Kept(cfg, rows, WithRow(rows, id, ClaimOutcome(rows, id, t, patch, upsert).row))
  {
    if id in rows && IsFrozen(cfg, rows[id]) {
      var d := rows[id];
      NarrowedHolds(t.where, t.field, SourceCond(t.from), d);
      UntouchedTakesByTest(cfg, t.from, Read(d, t.field));
      assert !InSource(t.from, Read(d, t.field));
      assert !Holds(ClaimFilter(t), d);
    }
  }

  lemma OtherClaimKeeps(cfg: Config, rows: Rows, id: Id, t: Transition, patch: Patch, upsert: bool)
    requires GuardById(cfg, rows, id, ClaimFilter(t)).None?
    ensures Kept(cfg, rows, WithRow(rows, id, ClaimOutcome(rows, id, t, patch, upsert).row))
  {
    if id in rows && IsFrozen(cfg, rows[id]) {
      if Holds(ClaimFilter(t), rows[id]) {
        ScopeHolds(cfg, ClaimFilter(t), rows[id]);
      }
    }
  }

  // An operation the guard lets through keeps every frozen row.
  lemma GuardedStepKeeps(cfg: Config, rows: Rows, order: seq<Id>, op: Op)
    requires Passes(cfg, rows, order, op) && InScope(cfg, rows, order, op)
    ensures Kept(cfg, rows, Effect(rows, order, op))
  {
    match op
    case ById(id, q, c) =>
      if id in rows && Holds(q, rows[id]) {
        ScopeHolds(cfg, q, rows[id]);
      }
    case FirstMatch(q, u, sort) =>
      FirstHolds(rows, q, order);
    case Many(q, c) =>
    case Bulk(_) =>
    case Claim(id, t, patch, upsert) =>
      if t.field == cfg.field {
        LiteralClaimKeeps(cfg, rows, id, t, patch, upsert);
      } else {
        OtherClaimKeeps(cfg, rows, id, t, patch, upsert);
      }
    case Insert(_, _) =>
  }

  function GuardedStep(cfg: Config, rows: Rows, order: seq<Id>, op: Op): Rows {
    if Passes(cfg, rows, order, op) then Effect(rows, order, op) else rows
  }

  // An operation guarded and written at one moment, or the write of a claim on the guarded
  // field landing at any time after its guard, which looked at no row.
  datatype Event = Adjacent(op: Op) | LateClaim(id: Id, t: Transition, patch: Patch, upsert: bool)

  function After(cfg: Config, rows: Rows, order: seq<Id>, e: Event): Rows {
    match e
    case Adjacent(op) => GuardedStep(cfg, rows, order, op)
    case LateClaim(id, t, patch, upsert) => Effect(rows, order, Claim(id, t, patch, upsert))
  }

  predicate EventInScope(cfg: Config, rows: Rows, order: seq<Id>, e: Event) {
    match e
    case Adjacent(op) => InScope(cfg, rows, order, op)
    case LateClaim(_, t, _, _) => t.field == cfg.field && NamesStates(t.from) && !TouchesFrozen(cfg, t.from)
  }

  function Run(cfg: Config, rows: Rows, order: seq<Id>, events: seq<Event>): Rows
    decreases |events|
  {
    if events == [] then rows else Run(cfg, After(cfg, rows, order, events[0]), order, events[1..])
  }

  // Sorted first matches are judged against the rows they meet.
  predicate RunInScope(cfg: Config, rows: Rows, order: seq<Id>, events: seq<Event>)
    decreases |events|
  {
    events == []
    || (EventInScope(cfg, rows, order, events[0])
        && RunInScope(cfg, After(cfg, rows, order, events[0]), order, events[1..]))
  }

  // Main result: no run of guarded operations, claims on the guarded field interleaved at
  // will, changes or removes a frozen row.
  lemma {:induction false} RunKeeps(cfg: Config, rows: Rows, order: seq<Id>, events: seq<Event>)
    requires RunInScope(cfg, rows, order, events)
    ensures Kept(cfg, rows, Run(cfg, rows, order, events))
    decreases |events|
  {
    if events != [] {
      match events[0] {
        case Adjacent(op) =>
          if Passes(cfg, rows, order, op) {
            GuardedStepKeeps(cfg, rows, order, op);
          }
        case LateClaim(id, t, patch, upsert) => LiteralClaimKeeps(cfg, rows, id, t, patch, upsert);
      }
      RunKeeps(cfg, After(cfg, rows, order, events[0]), order, events[1..]);
    }
  }

  // ---- Where it gives way ----------------------------------------------------------------

  // A first match writes a frozen row exactly when the caller's sort puts one first and the
  // natural order, which the guard reads by, does not, and the update changes that row.
  lemma SortedFirstMatch(cfg: Config, rows: Rows, order: seq<Id>, q: Filter, u: Update, sort: Option<seq<Id>>)
    requires Passes(cfg, rows, order, FirstMatch(q, u, sort))
    ensures !Kept(cfg, rows, Effect(rows, order, FirstMatch(q, u, sort))) <==>
      && sort.Some?
      && var target := First(rows, q, sort.value);
         target.Some? && target.value in rows && IsFrozen(cfg, rows[target.value])
         && Changed(Write(u), rows[target.value]) != Some(rows[target.value])
  {
    FirstHolds(rows, q, order);
    if sort.Some? {
      FirstHolds(rows, q, sort.value);
      var target := First(rows, q, sort.value);
      if target.Some? && IsFrozen(cfg, rows[target.value])
          && Changed(Write(u), rows[target.value]) != Some(rows[target.value]) {
        assert Effect(rows, order, FirstMatch(q, u, sort))[target.value] != rows[target.value];
      }
    }
  }

  // A claim on the guarded field that the guard lets through changes a frozen row exactly
  // when an operator object or a pattern of its source accepts that row's state, and its
  // update, written under its other guards, changes the row.
  lemma OperatorClaim(cfg: Config, rows: Rows, id: Id, t: Transition, patch: Patch)
    requires t.field == cfg.field && !TouchesFrozen(cfg, t.from)
    ensures !Kept(cfg, rows, Effect(rows, [], Claim(id, t, patch, false))) <==>
      && id in rows && IsFrozen(cfg, rows[id]) && TakesByTest(t.from, Read(rows[id], cfg.field))
      && ClaimStep(Some(rows[id]), t, patch).row != Some(rows[id])
  {
    KeptByOne(cfg, rows, id, ClaimStep(RowOf(rows, id), t, patch).row);
    if id in rows && IsFrozen(cfg, rows[id]) {
      ClaimWinsFromSource(RowOf(rows, id), t, patch);
      UntouchedTakesByTest(cfg, t.from, Read(rows[id], cfg.field));
    }
  }

  lemma KeptByOne(cfg: Config, rows: Rows, id: Id, row: Option<Doc>)
    ensures Kept(cfg, rows, WithRow(rows, id, row)) <==>
      (id in rows && IsFrozen(cfg, rows[id]) ==> row == Some(rows[id]))
  {
  }

  const POSTED := map["state" := Str("posted")]
  const DRAFT := map["state" := Str("draft")]

  // The guard reads the draft, the newest-first sort writes the posted row.
  lemma SortedMatchThaws(cfg: Config, always: Doc -> bool)
    requires cfg.field == "state" && cfg.states == {"posted"} && forall d :: always(d)
    ensures
      var rows: Rows := map["1" := DRAFT, "2" := POSTED];
      var op := FirstMatch(Filter(map[], always), NO_UPDATE.(set_ := map["state" := Str("void")]), Some(["2", "1"]));
      Passes(cfg, rows, ["1", "2"], op) && !Kept(cfg, rows, Effect(rows, ["1", "2"], op))
  {
    var rows: Rows := map["1" := DRAFT, "2" := POSTED];
    var q, u := Filter(map[], always), NO_UPDATE.(set_ := map["state" := Str("void")]);
    assert First(rows, q, ["1", "2"]) == Some("1") && First(rows, q, ["2", "1"]) == Some("2");
    assert "draft" != "posted" && "void" != "posted";
    assert Apply(u, POSTED).value["state"] == Str("void");
    SortedFirstMatch(cfg, rows, ["1", "2"], q, u, Some(["2", "1"]));
  }

  const NOT_DRAFT := Matching((v: Value) => v != Str("draft"), "[object Object]")
  const STARTS_POSTED := AnyOf([Pattern((v: Value) => v.Str? && "posted" <= v.s, "/^posted/")])

  // { from: { $ne: 'draft' }, to: 'void' } and { from: [/^posted/], to: 'void' } pass the
  // guard and void a posted row.
  lemma OperatorClaimThaws(cfg: Config, always: Doc -> bool, source: Source)
    requires cfg.field == "state" && cfg.states == {"posted"} && forall d :: always(d)
    requires source == NOT_DRAFT || source == STARTS_POSTED
    ensures
      var t := Transition("state", source, Str("void"), Filter(map[], always));
      var op := Claim("1", t, Patch(map[], NO_UPDATE), false);
      Passes(cfg, map["1" := POSTED], [], op) && !Kept(cfg, map["1" := POSTED], Effect(map["1" := POSTED], [], op))
  {
    var t := Transition("state", source, Str("void"), Filter(map[], always));
    var p := Patch(map[], NO_UPDATE);
    SourceTakesPosted(cfg, source);
    NarrowedHolds(t.where, "state", SourceCond(t.from), POSTED);
    var u := ClaimUpdate(t, p);
    assert u == NO_UPDATE.(set_ := map["state" := Str("void")]);
    assert Apply(u, POSTED).value["state"] == Str("void");
    assert Str("void") != Str("posted");
    OperatorClaim(cfg, map["1" := POSTED], "1", t, p);
  }

  lemma SourceTakesPosted(cfg: Config, source: Source)
    requires cfg.states == {"posted"}
    requires source == NOT_DRAFT || source == STARTS_POSTED
    ensures !TouchesFrozen(cfg, source) && TakesByTest(source, Str("posted"))
    ensures CondHolds(SourceCond(source), Str("posted"))
  {
    assert "posted"[0] != "draft"[0] && "[object Object]"[0] != "posted"[0] && "/^posted/"[0] != "posted"[0];
    if source.AnyOf? {
      assert source.members[0].accepts(Str("posted")) && Accepts(source.members[0], Str("posted"));
    }
  }

  // The guard of an update by id reads before the write: a row posted in between is written.
  lemma LateWriteThaws(cfg: Config, always: Doc -> bool)
    requires cfg.field == "state" && cfg.states == {"posted"} && forall d :: always(d)
    ensures
      var op := ById("1", Filter(map[], always), Write(NO_UPDATE.(set_ := map["note" := Str("x")])));
      && Passes(cfg, map["1" := DRAFT], [], op)
      && !Kept(cfg, map["1" := POSTED], Effect(map["1" := POSTED], [], op))
  {
    var u := NO_UPDATE.(set_ := map["note" := Str("x")]);
    var op := ById("1", Filter(map[], always), Write(u));
    assert "draft" != "posted";
    assert "note" in Apply(u, POSTED).value && "note" !in POSTED;
    assert Effect(map["1" := POSTED], [], op)["1"] != POSTED;
  }

  // ---- What the guard does not refuse ----------------------------------------------------

  // A batch whose filter already pins the guarded field outside the frozen states is let
  // through, whatever else is in the collection.
  lemma PinnedBatchPasses(cfg: Config, rows: Rows, order: seq<Id>, q: Filter, s: string, c: Change)
    requires cfg.field in q.fields && q.fields[cfg.field] == Is(Str(s)) && s !in cfg.states
    ensures Passes(cfg, rows, order, Many(q, c))
  {
    forall id | id in rows && Holds(q, rows[id]) ensures !IsFrozen(cfg, rows[id]) {
      assert CondHolds(q.fields[cfg.field], Read(rows[id], cfg.field));
    }
  }
}

module ImmutableStates {
  import opened Common
  import opened CasModel
  import opened CasProtocol
  import opened RepositoryCas
  import opened FrozenRows

  // A repository with the plugin applied; `order` is the natural order of its collection.
  class GuardedRepository {
    const cfg: Config
    const order: seq<Id>
    var rows: Rows

    constructor (cfg: Config, order: seq<Id>, rows: Rows)
      ensures this.cfg == cfg && this.order == order && this.rows == rows
    {
      this.cfg, this.order, this.rows := cfg, order, rows;
    }

    // before:updateMany and before:deleteMany: refuse when any frozen row is in the blast radius.
    method GuardMany(q: Filter) returns (r: Option<Violation>)
      ensures r.None? <==> forall id | id in rows && Holds(q, rows[id]) :: !IsFrozen(cfg, rows[id])
      ensures r.Some? ==>
        && r.value.id.Some? && r.value.id.value in rows
        && Holds(q, rows[r.value.id.value]) && IsFrozen(cfg, rows[r.value.id.value])
    {
      var hits := set id | id in rows && Holds(q, rows[id]) && IsFrozen(cfg, rows[id]);
      if hits == {} {
        assert forall id | id in rows && Holds(q, rows[id]) && IsFrozen(cfg, rows[id]) :: id in hits;
        return None;
      }
      var id :| id in hits;
      return Some(Violation(Some(id), None));
    }

    // before:findOneAndUpdate: the first match in natural order is read, without the caller's sort.
    method GuardFirst(q: Filter) returns (r: Option<Violation>)
      ensures r.None? <==> Passes(cfg, rows, order, FirstMatch(q, NO_UPDATE, None))
    {
      FirstHolds(rows, q, order);
      var doc := First(rows, q, order);
      if doc.None? {
        return None;
      }
      if IsFrozen(cfg, rows[doc.value]) {
        return Some(Violation(doc, Some(Read(rows[doc.value], cfg.field).s)));
      }
      return None;
    }

    method GuardAny(op: Op) returns (r: Option<Violation>)
      ensures r.None? <==> Passes(cfg, rows, order, op)
    {
      match op
      case ById(id, q, _) => r := GuardById(cfg, rows, id, q);
      case FirstMatch(q, _, _) => r := GuardFirst(q);
      case Many(q, _) => r := GuardMany(q);
      case Bulk(_) => r := Some(Violation(None, None));
      case Claim(id, t, patch, _) => r := GuardClaim(cfg, rows, id, t, patch);
      case Insert(_, _) => r := None;
    }

    // Guard, then write; the internal flag of the owning engine skips the guard.
    method Execute(op: Op, internal: bool) returns (r: Result<(), Violation>)
      modifies `rows
      ensures r.Ok? <==> internal || Passes(cfg, old(rows), order, op)
      ensures rows == if r.Ok? then Effect(old(rows), order, op) else old(rows)
      ensures !internal && InScope(cfg, old(rows), order, op) ==> Kept(cfg, old(rows), rows)
    {
      if !internal {
        var violation := GuardAny(op);
        if violation.Some? {
          return Err(violation.value);
        }
        if InScope(cfg, rows, order, op) {
          GuardedStepKeeps(cfg, rows, order, op);
        }
      }
      rows := Effect(rows, order, op);
      return Ok(());
    }
  }
}

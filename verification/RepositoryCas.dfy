// The compare-and-set writes of the repository: claim, applyTransition, update with
// ifVersion and claimVersion, over rows that other callers may write in between.

module CasModel {
  import opened Common

  datatype Value =
    | Null
    | Num(n: int)
    | Str(s: string)
    | List(items: seq<Value>)
    | Entry(status: string, occurredAt: int, actor: Option<string>, note: Option<string>)

  // Fields by path; the row's id is its key in the collection.
  type Doc = map<string, Value>

  function Read(d: Doc, f: string): Value {
    if f in d then d[f] else Null
  }

  // ---- Filters -------------------------------------------------------------------------

  datatype Cond = Is(v: Value) | Guard(holds: Value -> bool)

  // Field conditions, and whatever else a filter asks of the whole row.
  datatype Filter = Filter(fields: map<string, Cond>, also: Doc -> bool)

  predicate CondHolds(c: Cond, v: Value) {
    match c
    case Is(w) => v == w
    case Guard(p) => p(v)
  }

  predicate Holds(q: Filter, d: Doc) {
    (forall f | f in q.fields :: CondHolds(q.fields[f], Read(d, f))) && q.also(d)
  }

  // A condition put last replaces the caller's on the same field.
  function Narrowed(q: Filter, f: string, c: Cond): Filter {
    q.(fields := q.fields[f := c])
  }

  // What the caller's filter asks of the other fields.
  predicate HoldsElsewhere(q: Filter, f: string, d: Doc) {
    (forall g | g in q.fields && g != f :: CondHolds(q.fields[g], Read(d, g))) && q.also(d)
  }

  lemma NarrowedHolds(q: Filter, f: string, c: Cond, d: Doc)
    ensures Holds(Narrowed(q, f, c), d) <==> CondHolds(c, Read(d, f)) && HoldsElsewhere(q, f, d)
  {
    var fields := q.fields[f := c];
    assert fields[f] == c;
    assert forall g | g in q.fields && g != f :: g in fields && fields[g] == q.fields[g];
  }

  // ---- Updates -------------------------------------------------------------------------

  // An update document; an operator with no fields stands for an absent one.
  datatype Update = Update(
    set_: Doc,
    inc: map<string, int>,
    unset: set<string>,
    push: map<string, Value>,
    setOnInsert: Doc)

  const NO_UPDATE := Update(map[], map[], {}, map[], map[])

  datatype DbError = PathConflict | TypeMismatch | DuplicateKey

  // Two operators on one path.
  predicate Conflicting(u: Update) {
    !(u.set_.Keys !! u.inc.Keys !! u.unset !! u.push.Keys !! u.setOnInsert.Keys)
  }

  predicate Mistyped(u: Update, d: Doc) {
    || (exists f | f in u.inc :: f in d && !d[f].Num?)
    || (exists f | f in u.push :: f in d && !d[f].List?)
  }

  predicate Names(u: Update, f: string) {
    f in u.set_ || f in u.inc || f in u.unset || f in u.push
  }

  function NewValue(u: Update, d: Doc, f: string): Value
    requires !Mistyped(u, d)
    requires f in d || f in u.set_ || f in u.inc || f in u.push
  {
    if f in u.set_ then u.set_[f]
    else if f in u.inc then Num(u.inc[f] + if f in d then d[f].n else 0)
    else if f in u.push then List((if f in d then d[f].items else []) + [u.push[f]])
    else d[f]
  }

  // The server's update of an existing row.
  function Apply(u: Update, d: Doc): Result<Doc, DbError> {
    if Conflicting(u) then Err(PathConflict)
    else if Mistyped(u, d) then Err(TypeMismatch)
    else Ok(map f | f in d.Keys + u.set_.Keys + u.inc.Keys + u.push.Keys && f !in u.unset :: NewValue(u, d, f))
  }

  lemma ApplyNothing(d: Doc)
    ensures Apply(NO_UPDATE, d) == Ok(d)
  {
    assert Apply(NO_UPDATE, d).value == d;
  }

  // The row an upsert inserts: the filter's equalities, then the update.
  function Inserted(q: Filter, u: Update): Result<Doc, DbError> {
    if Conflicting(u) then Err(PathConflict)
    else
      var seed := map f | f in q.fields && q.fields[f].Is? :: q.fields[f].v;
      Apply(u.(set_ := u.set_ + u.setOnInsert, setOnInsert := map[]), seed)
  }

  // ---- One atomic step -----------------------------------------------------------------

  datatype CasError =
    | MixedPatch
    | VersionFieldOwned
    | Db(error: DbError)
    | IllegalTransition(source: string, target: string)
    | NotFound
    | RaceLost(current: string)
    | VersionConflict(expected: int, actual: Option<int>)

  datatype Outcome = Outcome(row: Option<Doc>, result: Result<Option<Doc>, CasError>)

  // findOneAndUpdate on the row of one id, returning the row afterwards.
  function FindOneAndUpdate(row: Option<Doc>, q: Filter, u: Update): Outcome {
    if row.None? || !Holds(q, row.value) then Outcome(row, Ok(None))
    else
      match Apply(u, row.value)
      case Ok(d) => Outcome(Some(d), Ok(Some(d)))
      case Err(e) => Outcome(row, Err(Db(e)))
  }

  function Upsert(row: Option<Doc>, q: Filter, u: Update): Outcome {
    if row.Some? then
      if Holds(q, row.value) then FindOneAndUpdate(row, q, u) else Outcome(row, Err(Db(DuplicateKey)))
    else
      match Inserted(q, u)
      case Ok(d) => Outcome(Some(d), Ok(Some(d)))
      case Err(e) => Outcome(row, Err(Db(e)))
  }

  // ---- Caller patches ------------------------------------------------------------------

  // Field values, or operators; a patch with both is refused.
  datatype Patch = Patch(flat: Doc, ops: Update)

  predicate Mixed(p: Patch) {
    p.flat != map[] && p.ops != NO_UPDATE
  }

  // What an unmixed patch writes, in operator form.
  function AsOperators(p: Patch): Update {
    if p.ops == NO_UPDATE then NO_UPDATE.(set_ := p.flat) else p.ops
  }
}

module CasProtocol {
  import opened Common
  import opened CasModel

  // ---- claim ---------------------------------------------------------------------------

  // A member of a $in list: a literal, or a regular expression, which the server matches by
  // pattern and the host prints as `text`.
  datatype Member = Literal(v: Value) | Pattern(accepts: Value -> bool, text: string)

  // A literal, a list, or an operator object or regular expression, which the server takes as
  // a test and the host prints as `text`.
  datatype Source = One(v: Value) | AnyOf(members: seq<Member>) | Matching(accepts: Value -> bool, text: string)

  predicate Accepts(m: Member, v: Value) {
    match m
    case Literal(w) => v == w
    case Pattern(accepts, _) => accepts(v)
  }

  datatype Transition = Transition(field: string, from: Source, to: Value, where: Filter)

  predicate InSource(s: Source, v: Value) {
    match s
    case One(w) => v == w
    case AnyOf(ms) => exists i | 0 <= i < |ms| :: Accepts(ms[i], v)
    case Matching(accepts, _) => accepts(v)
  }

  predicate IsNoop(t: Transition) {
    t.from == One(t.to)
  }

  function SourceCond(s: Source): Cond {
    match s
    case One(v) => Is(v)
    case AnyOf(ms) => Guard(v => exists i | 0 <= i < |ms| :: Accepts(ms[i], v))
    case Matching(accepts, _) => Guard(accepts)
  }

  function ClaimFilter(t: Transition): Filter {
    Narrowed(t.where, t.field, SourceCond(t.from))
  }

  // A claim writes the caller's patch and, unless from and to are the same literal, the
  // target state over whatever the patch puts there.
  function ClaimUpdate(t: Transition, p: Patch): Update {
    var u := AsOperators(p);
    if IsNoop(t) then u else u.(set_ := u.set_[t.field := t.to])
  }

  function ClaimStep(row: Option<Doc>, t: Transition, p: Patch): Outcome {
    if Mixed(p) then Outcome(row, Err(MixedPatch)) else FindOneAndUpdate(row, ClaimFilter(t), ClaimUpdate(t, p))
  }

  function ClaimUpsertStep(row: Option<Doc>, t: Transition, p: Patch): Outcome {
    if Mixed(p) then Outcome(row, Err(MixedPatch))
    else
      var u := ClaimUpdate(t, p);
      Upsert(row, ClaimFilter(t), if u == NO_UPDATE then u.(setOnInsert := map[t.field := t.to]) else u)
  }

  predicate Won(o: Outcome) {
    o.result.Ok? && o.result.value.Some?
  }

  // A claim wins only from a source state under its guards, and an unsuccessful one writes nothing.
  lemma ClaimWinsFromSource(row: Option<Doc>, t: Transition, p: Patch)
    ensures var o := ClaimStep(row, t, p);
      if Won(o) then
        row.Some? && InSource(t.from, Read(row.value, t.field)) && HoldsElsewhere(t.where, t.field, row.value)
        && o.row == o.result.value
      else o.row == row
  {
    if row.Some? {
      NarrowedHolds(t.where, t.field, SourceCond(t.from), row.value);
    }
  }

  // The patch leaves a field holding `to` at `to`.
  predicate LeavesAt(p: Patch, f: string, to: Value) {
    var u := AsOperators(p);
    && (f in u.set_ ==> u.set_[f] == to)
    && (f in u.inc ==> u.inc[f] == 0 && to != Null)
    && (f in u.unset ==> to == Null)
    && f !in u.push
  }

  // A winning claim puts the row in the target state exactly when from and to differ or the
  // patch leaves the state where it is: with equal ends the patch is written as given.
  lemma ClaimLandsInTarget(row: Option<Doc>, t: Transition, p: Patch)
    requires Won(ClaimStep(row, t, p))
    ensures Read(ClaimStep(row, t, p).row.value, t.field) == t.to <==> (IsNoop(t) ==> LeavesAt(p, t.field, t.to))
  {
    var d, u := row.value, ClaimUpdate(t, p);
    ClaimWinsFromSource(row, t, p);
    assert Apply(u, d).Ok?;
    if !IsNoop(t) {
      assert t.field in u.set_ && t.field !in u.unset;
    } else {
      assert Read(d, t.field) == t.to;
      var f := t.field;
      if f in u.push && f in d {
        assert |d[f].items + [u.push[f]]| != |d[f].items|;
      }
      assert f !in u.unset && (f in d || Names(u, f)) ==> Read(Apply(u, d).value, f) == NewValue(u, d, f);
    }
  }

  // An already open row re-claimed as open by a patch that says otherwise.
  lemma NoopClaimLeavesTarget()
    ensures
      var t := Transition("status", One(Str("open")), Str("open"), Filter(map[], d => true));
      var o := ClaimStep(Some(map["status" := Str("open")]), t, Patch(map["status" := Str("gone")], NO_UPDATE));
      Won(o) && Read(o.row.value, "status") == Str("gone")
  {
    var t := Transition("status", One(Str("open")), Str("open"), Filter(map[], d => true));
    var row, p := map["status" := Str("open")], Patch(map["status" := Str("gone")], NO_UPDATE);
    NarrowedHolds(t.where, "status", Is(Str("open")), row);
    assert ClaimUpdate(t, p).set_ == map["status" := Str("gone")];
  }

  // The append pattern: an empty upsert claim that asserts a state inserts the row once, and
  // every replay returns it without writing.
  lemma UpsertReplays(t: Transition)
    requires IsNoop(t) && t.where.fields == map[] && forall d :: t.where.also(d)
    ensures
      var p, row := Patch(map[], NO_UPDATE), Some(map[t.field := t.to]);
      && ClaimUpsertStep(None, t, p) == Outcome(row, Ok(row))
      && ClaimUpsertStep(row, t, p) == Outcome(row, Ok(row))
  {
    var u := NO_UPDATE.(setOnInsert := map[t.field := t.to]);
    var d: Doc := map[t.field := t.to];
    assert ClaimUpdate(t, Patch(map[], NO_UPDATE)) == NO_UPDATE;
    assert ClaimFilter(t).fields == map[t.field := Is(t.to)];
    assert Inserted(ClaimFilter(t), u) == Ok(d) by {
      assert Inserted(ClaimFilter(t), u).value == d;
    }
    NarrowedHolds(t.where, t.field, Is(t.to), d);
    assert Apply(u, d) == Ok(d) by {
      assert Apply(u, d).value == d;
    }
  }

  // ---- applyTransition -----------------------------------------------------------------

  // The machine's table of legal moves.
  type Machine = set<(string, string)>

  datatype Sources = Single(state: string) | Multi(states: seq<string>)

  datatype Args = Args(
    from: Sources,
    to: string,
    field: string,
    set_: Doc,
    push: map<string, Value>,
    inc: map<string, int>,
    unset: set<string>,
    where: Filter,
    actor: Option<string>,
    note: Option<string>,
    history: Option<string>,
    at: int)

  function SourceStates(a: Args): seq<string> {
    match a.from case Single(s) => [s] case Multi(ss) => ss
  }

  // The first source the machine forbids, if any; in a list the target itself is allowed.
  predicate Refused(m: Machine, a: Args, s: string) {
    !(a.from.Multi? && s == a.to) && (s, a.to) !in m
  }

  predicate Legal(m: Machine, a: Args) {
    forall i | 0 <= i < |SourceStates(a)| :: !Refused(m, a, SourceStates(a)[i])
  }

  function HistoryEntry(a: Args): Value {
    Entry(a.to, a.at, a.actor, a.note)
  }

  function TransitionOf(a: Args): Transition {
    Transition(a.field,
               match a.from
               case Single(s) => One(Str(s))
               case Multi(ss) => AnyOf(seq(|ss|, i requires 0 <= i < |ss| => Literal(Str(ss[i])))),
               Str(a.to), a.where)
  }

  function TransitionPatch(a: Args): Patch {
    Patch(map[], Update(a.set_, a.inc, a.unset,
                        if a.history.Some? then a.push[a.history.value := HistoryEntry(a)] else a.push,
                        map[]))
  }

  function TransitionStep(row: Option<Doc>, a: Args): Outcome {
    ClaimStep(row, TransitionOf(a), TransitionPatch(a))
  }

  // ---- Histories under interleaving ----------------------------------------------------

  const HISTORY := "statusHistory"

  datatype Event =
    | Move(a: Args)
    // Any write by others that does not name the state or the history.
    | Touch(u: Update)

  predicate Allowed(m: Machine, field: string, e: Event) {
    match e
    case Move(a) =>
      && Legal(m, a) && a.field == field && a.history == Some(HISTORY)
      && (a.from == Single(a.to) ==> !Names(AsOperators(TransitionPatch(a)), field))
    case Touch(u) => !Names(u, field) && !Names(u, HISTORY)
  }

  function Step(row: Option<Doc>, e: Event): Option<Doc> {
    match e
    case Move(a) => TransitionStep(row, a).row
    case Touch(u) => if row.Some? && Apply(u, row.value).Ok? then Some(Apply(u, row.value).value) else row
  }

  function Run(row: Option<Doc>, events: seq<Event>): Option<Doc>
    decreases |events|
  {
    if events == [] then row else Run(Step(row, events[0]), events[1..])
  }

  function HistoryOf(d: Doc): seq<Value> {
    if HISTORY in d && d[HISTORY].List? then d[HISTORY].items else []
  }

  // From one of its source states, the call is a move of the machine, or the re-claim of the
  // target state that a list of sources declares.
  predicate MovesFrom(m: Machine, state: string, a: Args) {
    state in SourceStates(a) && ((state, a.to) in m || (a.from.Multi? && state == a.to))
  }

  // The state in which the i-th winning call found the row.
  function StateBefore(start: string, wins: seq<Args>, i: nat): string
    requires i <= |wins|
  {
    if i == 0 then start else wins[i - 1].to
  }

  predicate MoveAt(m: Machine, start: string, wins: seq<Args>, i: nat)
    requires i < |wins|
  {
    MovesFrom(m, StateBefore(start, wins, i), wins[i])
  }

  predicate Walks(m: Machine, start: string, wins: seq<Args>) {
    forall i | 0 <= i < |wins| :: MoveAt(m, start, wins, i)
  }

  function Entries(wins: seq<Args>): seq<Value> {
    seq(|wins|, i requires 0 <= i < |wins| => HistoryEntry(wins[i]))
  }

  // The history has grown by the entries of the winning calls, those calls walk the machine
  // from the state at the start, and the row is in the state the walk ends in.
  ghost predicate Faithful(m: Machine, field: string, start: string, before: seq<Value>, wins: seq<Args>,
                           row: Option<Doc>)
  {
    row.Some? ==>
      && HistoryOf(row.value) == before + Entries(wins)
      && Read(row.value, field) == Str(StateBefore(start, wins, |wins|))
      && Walks(m, start, wins)
  }

  lemma WalkExtends(m: Machine, start: string, wins: seq<Args>, a: Args)
    requires Walks(m, start, wins) && MovesFrom(m, StateBefore(start, wins, |wins|), a)
    ensures Walks(m, start, wins + [a])
  {
    var longer := wins + [a];
    forall i | 0 <= i < |longer| ensures MoveAt(m, start, longer, i) {
      assert StateBefore(start, longer, i) == StateBefore(start, wins, i);
      if i < |wins| {
        assert MoveAt(m, start, wins, i);
      }
    }
  }

  lemma EntriesConcat(a: seq<Args>, b: seq<Args>)
    ensures Entries(a + b) == Entries(a) + Entries(b)
  {
  }

  lemma EntryOf(a: Args)
    ensures Entries([a]) == [HistoryEntry(a)]
  {
  }

  lemma Associates<T>(a: seq<T>, b: seq<T>, c: seq<T>)
    ensures (a + b) + c == a + (b + c)
  {
  }

  lemma SourceMoves(m: Machine, a: Args, v: Value)
    requires Legal(m, a) && InSource(TransitionOf(a).from, v)
    ensures v.Str? && MovesFrom(m, v.s, a)
  {
    match a.from
    case Single(x) =>
      assert !Refused(m, a, SourceStates(a)[0]);
    case Multi(ss) =>
      var ms := TransitionOf(a).from.members;
      var i :| 0 <= i < |ms| && Accepts(ms[i], v);
      assert v == Str(ss[i]) && !Refused(m, a, SourceStates(a)[i]);
  }

  // What a winning transition leaves: the target state and one more history entry.
  lemma MoveWrites(d: Doc, m: Machine, field: string, a: Args)
    requires Allowed(m, field, Move(a)) && Won(TransitionStep(Some(d), a))
    ensures field != HISTORY
    ensures var after := TransitionStep(Some(d), a).row.value;
      Read(after, field) == Str(a.to) && HistoryOf(after) == HistoryOf(d) + [HistoryEntry(a)]
  {
    var t, p := TransitionOf(a), TransitionPatch(a);
    var u := ClaimUpdate(t, p);
    assert HISTORY in p.ops.push && p.ops != NO_UPDATE;
    ClaimLandsInTarget(Some(d), t, p);
    assert Apply(u, d).Ok? && HISTORY in u.push && HISTORY !in u.set_;
    assert !IsNoop(t) ==> field in u.set_;
  }

  lemma TouchKeeps(d: Doc, u: Update, f: string)
    requires !Names(u, f) && Apply(u, d).Ok?
    ensures f in Apply(u, d).value <==> f in d
    ensures Read(Apply(u, d).value, f) == Read(d, f)
  {
  }

  // The call the event wins, if any.
  function WonBy(row: Option<Doc>, e: Event): seq<Args> {
    if e.Move? && Won(TransitionStep(row, e.a)) then [e.a] else []
  }

  // The winning calls of a run, in the order they won.
  function Wins(row: Option<Doc>, events: seq<Event>): seq<Args>
    decreases |events|
  {
    if events == [] then [] else WonBy(row, events[0]) + Wins(Step(row, events[0]), events[1..])
  }

  // A move leaves the target state and one more entry, or the row as it was; a touch neither.
  lemma StepRecords(m: Machine, field: string, d: Doc, e: Event) returns (next: Doc)
    requires Allowed(m, field, e)
    ensures Step(Some(d), e) == Some(next)
    ensures HistoryOf(next) == HistoryOf(d) + Entries(WonBy(Some(d), e))
    ensures Read(next, field) == if WonBy(Some(d), e) == [] then Read(d, field) else Str(e.a.to)
    ensures WonBy(Some(d), e) != [] ==> Read(d, field).Str? && MovesFrom(m, Read(d, field).s, e.a)
  {
    next := Step(Some(d), e).value;
    match e
    case Move(a) =>
      ClaimWinsFromSource(Some(d), TransitionOf(a), TransitionPatch(a));
      if Won(TransitionStep(Some(d), a)) {
        MoveWrites(d, m, field, a);
        SourceMoves(m, a, Read(d, field));
        EntryOf(a);
      }
    case Touch(u) =>
      if Apply(u, d).Ok? {
        TouchKeeps(d, u, field);
        TouchKeeps(d, u, HISTORY);
      }
  }

  lemma StepKeepsFaithful(m: Machine, field: string, start: string, before: seq<Value>, wins: seq<Args>,
                          row: Option<Doc>, e: Event)
    requires Faithful(m, field, start, before, wins, row) && Allowed(m, field, e)
    ensures Faithful(m, field, start, before, wins + WonBy(row, e), Step(row, e))
  {
    if row.Some? {
      var next := StepRecords(m, field, row.value, e);
      if WonBy(row, e) == [] {
        assert wins + [] == wins && before + Entries(wins) + [] == before + Entries(wins);
      } else {
        WalkExtends(m, start, wins, e.a);
        EntriesConcat(wins, [e.a]);
        Associates(before, Entries(wins), Entries([e.a]));
      }
    }
  }

  // Main result: whatever the interleaving, the history grows by the entries of the winning
  // calls, in order, and these walk the machine to the current state: each step is an edge or
  // a re-claim that the call's list of sources declares.
  lemma {:induction false} RunKeepsFaithful(m: Machine, field: string, start: string, before: seq<Value>,
                                            wins: seq<Args>, row: Option<Doc>, events: seq<Event>)
    requires Faithful(m, field, start, before, wins, row)
    requires forall i | 0 <= i < |events| :: Allowed(m, field, events[i])
    ensures Faithful(m, field, start, before, wins + Wins(row, events), Run(row, events))
    decreases |events|
  {
    if events == [] {
      assert wins + [] == wins;
    } else {
      var won, rest := WonBy(row, events[0]), Wins(Step(row, events[0]), events[1..]);
      StepKeepsFaithful(m, field, start, before, wins, row, events[0]);
      RunKeepsFaithful(m, field, start, before, wins + won, Step(row, events[0]), events[1..]);
      Associates(wins, won, rest);
    }
  }

  // No entry is lost, repeated or reordered, whatever state the row starts in.
  lemma {:induction false} HistoryRecordsWins(m: Machine, field: string, d: Doc, events: seq<Event>)
    requires forall i | 0 <= i < |events| :: Allowed(m, field, events[i])
    ensures Run(Some(d), events).Some?
    ensures HistoryOf(Run(Some(d), events).value) == HistoryOf(d) + Entries(Wins(Some(d), events))
    decreases |events|
  {
    if events != [] {
      var next := StepRecords(m, field, d, events[0]);
      var won, rest := WonBy(Some(d), events[0]), Wins(Some(next), events[1..]);
      HistoryRecordsWins(m, field, next, events[1..]);
      EntriesConcat(won, rest);
      Associates(HistoryOf(d), Entries(won), Entries(rest));
    }
  }
}

module VersionProtocol {
  import opened Common
  import opened CasModel
  import opened CasProtocol

  // ---- update with ifVersion -----------------------------------------------------------

  // assertCasOwnsVersionField: only an increment by one may name the version field.
  predicate OwnsVersion(p: Patch, vf: string) {
    && vf !in p.flat && vf !in p.ops.set_ && vf !in p.ops.unset && vf !in p.ops.push && vf !in p.ops.setOnInsert
    && (vf in p.ops.inc ==> p.ops.inc[vf] == 1)
  }

  function VersionFilter(scope: Filter, vf: string, expected: Option<int>): Filter {
    Narrowed(scope, vf, Is(if expected.None? then Null else Num(expected.value)))
  }

  function Bumped(u: Update, vf: string, step: int): Update {
    u.(inc := u.inc[vf := step])
  }

  function IfVersionStep(row: Option<Doc>, scope: Filter, vf: string, expected: int, p: Patch): Outcome {
    if Mixed(p) then Outcome(row, Err(MixedPatch))
    else if !OwnsVersion(p, vf) then Outcome(row, Err(VersionFieldOwned))
    else FindOneAndUpdate(row, VersionFilter(scope, vf, Some(expected)), Bumped(AsOperators(p), vf, 1))
  }

  // The caller's payload alone, the version field left out of it.
  function Payload(p: Patch, vf: string): Update {
    var u := AsOperators(p);
    u.(inc := map f | f in u.inc && f != vf :: u.inc[f])
  }

  // The write is the payload and the next version, nothing else.
  lemma WriteIsPayload(d: Doc, p: Patch, vf: string, v: int)
    requires OwnsVersion(p, vf) && vf in d && d[vf] == Num(v)
    requires Apply(Bumped(AsOperators(p), vf, 1), d).Ok?
    ensures Apply(Payload(p, vf), d).Ok?
    ensures Apply(Bumped(AsOperators(p), vf, 1), d).value == Apply(Payload(p, vf), d).value[vf := Num(v + 1)]
  {
    var u := AsOperators(p);
    assert vf !in u.set_ && vf !in u.unset && vf !in u.push && vf !in u.setOnInsert;
    BumpIsApart(d, u, Payload(p, vf), vf, v);
  }

  lemma BumpIsApart(d: Doc, u: Update, w: Update, vf: string, v: int)
    requires vf !in u.set_ && vf !in u.unset && vf !in u.push && vf !in u.setOnInsert
    requires w == u.(inc := map f | f in u.inc && f != vf :: u.inc[f])
    requires vf in d && d[vf] == Num(v)
    requires Apply(Bumped(u, vf, 1), d).Ok?
    ensures Apply(w, d).Ok?
    ensures Apply(Bumped(u, vf, 1), d).value == Apply(w, d).value[vf := Num(v + 1)]
  {
    var full := Bumped(u, vf, 1);
    assert w.inc.Keys <= full.inc.Keys && full.inc.Keys == w.inc.Keys + {vf};
    FewerOperators(full, w, d);
    BumpedKeys(d, full, w, vf);
    var a, b := Apply(full, d).value, Apply(w, d).value[vf := Num(v + 1)];
    forall f | f in a ensures a[f] == b[f] {
      assert a[f] == NewValue(full, d, f);
      if f != vf {
        assert NewValue(full, d, f) == NewValue(w, d, f);
      }
    }
  }

  lemma BumpedKeys(d: Doc, full: Update, w: Update, vf: string)
    requires vf in d && vf !in full.unset && Apply(full, d).Ok? && Apply(w, d).Ok?
    requires w.(inc := full.inc) == full && full.inc.Keys == w.inc.Keys + {vf}
    ensures Apply(full, d).value.Keys == Apply(w, d).value.Keys && vf in Apply(w, d).value
  {
    assert d.Keys + full.set_.Keys + full.inc.Keys + full.push.Keys == d.Keys + w.set_.Keys + w.inc.Keys + w.push.Keys;
  }

  lemma FewerOperators(u: Update, w: Update, d: Doc)
    requires w.(inc := u.inc) == u && w.inc.Keys <= u.inc.Keys && Apply(u, d).Ok?
    ensures Apply(w, d).Ok?
  {
    assert !Conflicting(w);
  }

  datatype Call = Call(expected: int, payload: Patch, scope: Filter)

  function AfterCall(row: Option<Doc>, vf: string, c: Call): Outcome {
    IfVersionStep(row, c.scope, vf, c.expected, c.payload)
  }

  function Writes(row: Option<Doc>, vf: string, calls: seq<Call>): Option<Doc>
    decreases |calls|
  {
    if calls == [] then row else Writes(AfterCall(row, vf, calls[0]).row, vf, calls[1..])
  }

  // The calls that succeed, in the order their writes land.
  function Successes(row: Option<Doc>, vf: string, calls: seq<Call>): seq<Call>
    decreases |calls|
  {
    if calls == [] then []
    else
      var o := AfterCall(row, vf, calls[0]);
      (if Won(o) then [calls[0]] else []) + Successes(o.row, vf, calls[1..])
  }

  // One payload after another, each on the row the one before it left.
  function Fold(d: Doc, vf: string, v: int, calls: seq<Call>): Result<Doc, DbError>
    decreases |calls|
  {
    if calls == [] then Ok(d)
    else
      match Apply(Payload(calls[0].payload, vf), d)
      case Err(e) => Err(e)
      case Ok(next) => Fold(next[vf := Num(v + 1)], vf, v + 1, calls[1..])
  }

  lemma IfVersionWins(d: Doc, vf: string, v: int, c: Call)
    requires vf in d && d[vf] == Num(v)
    ensures var o := AfterCall(Some(d), vf, c);
      if Won(o) then
        && c.expected == v
        && Apply(Payload(c.payload, vf), d).Ok?
        && o.row == Some(Apply(Payload(c.payload, vf), d).value[vf := Num(v + 1)])
        && o.result == Ok(o.row)
      else o.row == Some(d)
  {
    NarrowedHolds(c.scope, vf, Is(Num(c.expected)), d);
    if Won(AfterCall(Some(d), vf, c)) {
      WriteIsPayload(d, c.payload, vf, v);
    }
  }

  lemma FoldCons(d: Doc, vf: string, v: int, c: Call, rest: seq<Call>, written: Doc)
    requires Apply(Payload(c.payload, vf), d) == Ok(written)
    ensures Fold(d, vf, v, [c] + rest) == Fold(written[vf := Num(v + 1)], vf, v + 1, rest)
  {
    assert ([c] + rest)[1..] == rest;
  }

  // A successful call named the stored version, and the rest of the run folds over its row.
  lemma WinningCall(d: Doc, vf: string, v: int, c: Call, rest: seq<Call>) returns (next: Doc)
    requires vf in d && d[vf] == Num(v) && Won(AfterCall(Some(d), vf, c))
    ensures c.expected == v && vf in next && next[vf] == Num(v + 1)
    ensures AfterCall(Some(d), vf, c).row == Some(next)
    ensures Fold(d, vf, v, [c] + rest) == Fold(next, vf, v + 1, rest)
  {
    IfVersionWins(d, vf, v, c);
    var written := Apply(Payload(c.payload, vf), d).value;
    FoldCons(d, vf, v, c, rest, written);
    next := written[vf := Num(v + 1)];
  }

  lemma LosingCall(d: Doc, vf: string, v: int, c: Call)
    requires vf in d && d[vf] == Num(v) && !Won(AfterCall(Some(d), vf, c))
    ensures AfterCall(Some(d), vf, c).row == Some(d)
  {
    IfVersionWins(d, vf, v, c);
  }

  // The winners named v, v + 1, ..., and the row is what their payloads make of d.
  ghost predicate Serialized(d: Doc, vf: string, v: int, wins: seq<Call>, row: Option<Doc>) {
    && (forall i | 0 <= i < |wins| :: wins[i].expected == v + i)
    && Fold(d, vf, v, wins).Ok? && row == Some(Fold(d, vf, v, wins).value)
  }

  lemma SerializedCons(d: Doc, vf: string, v: int, c: Call, next: Doc, wins: seq<Call>, row: Option<Doc>)
    requires Serialized(next, vf, v + 1, wins, row) && c.expected == v
    requires Fold(d, vf, v, [c] + wins) == Fold(next, vf, v + 1, wins)
    ensures Serialized(d, vf, v, [c] + wins, row)
  {
  }

  // Main result: the expected versions of the successful calls run v0, v0 + 1, ... without a
  // gap or a repeat, and the row is their payloads applied one after another.
  lemma {:induction false} VersionsSerialize(d: Doc, vf: string, v: int, calls: seq<Call>)
    requires vf in d && d[vf] == Num(v)
    ensures Serialized(d, vf, v, Successes(Some(d), vf, calls), Writes(Some(d), vf, calls))
    decreases |calls|
  {
    if calls != [] {
      var rest := Successes(AfterCall(Some(d), vf, calls[0]).row, vf, calls[1..]);
      if Won(AfterCall(Some(d), vf, calls[0])) {
        var next := WinningCall(d, vf, v, calls[0], rest);
        VersionsSerialize(next, vf, v + 1, calls[1..]);
        SerializedCons(d, vf, v, calls[0], next, rest, Writes(Some(next), vf, calls[1..]));
      } else {
        LosingCall(d, vf, v, calls[0]);
        VersionsSerialize(d, vf, v, calls[1..]);
        assert [] + rest == rest;
      }
    }
  }

  // ---- claimVersion --------------------------------------------------------------------

  datatype VersionClaim = VersionClaim(field: string, from: Option<int>, step: int, where: Filter, update: Patch)

  // A first write may not name the version field in its $set or $inc.
  predicate InitializesVersion(u: Update, vf: string) {
    vf !in u.set_ && vf !in u.inc
  }

  function VersionUpdate(c: VersionClaim): Update {
    var u := AsOperators(c.update);
    if c.from.None? then u.(set_ := u.set_[c.field := Num(c.step)]) else Bumped(u, c.field, c.step)
  }

  function VersionStep(row: Option<Doc>, c: VersionClaim): Outcome {
    if Mixed(c.update) then Outcome(row, Err(MixedPatch))
    else if c.from.None? && !InitializesVersion(AsOperators(c.update), c.field) then
      Outcome(row, Err(VersionFieldOwned))
    else FindOneAndUpdate(row, VersionFilter(c.where, c.field, c.from), VersionUpdate(c))
  }

  // A winning claim moves the version by its step; a losing one writes nothing.
  lemma ClaimMovesVersion(row: Option<Doc>, c: VersionClaim)
    ensures var o := VersionStep(row, c);
      if Won(o) then
        && row.Some? && o.row.Some? && o.result == Ok(o.row)
        && Read(row.value, c.field) == (if c.from.None? then Null else Num(c.from.value))
        && Read(o.row.value, c.field) == Num(c.step + if c.from.None? then 0 else c.from.value)
      else o.row == row
  {
    if row.Some? {
      var d, u := row.value, VersionUpdate(c);
      NarrowedHolds(c.where, c.field, Is(if c.from.None? then Null else Num(c.from.value)), d);
      if Won(VersionStep(row, c)) {
        assert Apply(u, d).Ok?;
        assert if c.from.None? then c.field in u.set_ else c.field in u.inc;
      }
    }
  }

  function AfterClaims(row: Option<Doc>, claims: seq<VersionClaim>): Option<Doc>
    decreases |claims|
  {
    if claims == [] then row else AfterClaims(VersionStep(row, claims[0]).row, claims[1..])
  }

  predicate Forward(field: string, claims: seq<VersionClaim>) {
    forall i | 0 <= i < |claims| :: claims[i].field == field && claims[i].step >= 1
  }

  predicate VersionAbove(row: Option<Doc>, field: string, n: int) {
    row.Some? ==> Read(row.value, field).Num? && Read(row.value, field).n > n
  }

  lemma {:induction false} ClaimsStayAbove(row: Option<Doc>, field: string, n: int, claims: seq<VersionClaim>)
    requires VersionAbove(row, field, n) && Forward(field, claims)
    ensures VersionAbove(AfterClaims(row, claims), field, n)
    decreases |claims|
  {
    if claims != [] {
      ClaimMovesVersion(row, claims[0]);
      ClaimsStayAbove(VersionStep(row, claims[0]).row, field, n, claims[1..]);
    }
  }

  // Main result: with steps of at least one, two claims of one row with the same numeric
  // version never both win, whatever further claims land between them.
  lemma SameVersionWinsOnce(row: Option<Doc>, a: VersionClaim, between: seq<VersionClaim>, b: VersionClaim)
    requires a.field == b.field && a.step >= 1 && Forward(a.field, between)
    requires a.from.Some? && b.from == a.from
    requires Won(VersionStep(row, a))
    ensures !Won(VersionStep(AfterClaims(VersionStep(row, a).row, between), b))
  {
    ClaimMovesVersion(row, a);
    ClaimsStayAbove(VersionStep(row, a).row, a.field, a.from.value, between);
    ClaimMovesVersion(AfterClaims(VersionStep(row, a).row, between), b);
  }

  // Straight after a winning claim the same call wins again exactly when its step is zero,
  // its guards still hold and its update still applies.
  lemma ZeroStepWinsAgain(row: Option<Doc>, c: VersionClaim)
    requires c.from.Some? && Won(VersionStep(row, c))
    ensures var next := VersionStep(row, c).row;
      Won(VersionStep(next, c)) <==>
        c.step == 0 && HoldsElsewhere(c.where, c.field, next.value) && !Mistyped(VersionUpdate(c), next.value)
  {
    ClaimMovesVersion(row, c);
    var next := VersionStep(row, c).row;
    ClaimMovesVersion(next, c);
    NarrowedHolds(c.where, c.field, Is(Num(c.from.value)), next.value);
  }
}

module RepositoryCas {
  import opened Common
  import opened CasModel
  import opened CasProtocol
  import opened VersionProtocol

  type Id = string

  type Rows = map<Id, Doc>

  function RowOf(rows: Rows, id: Id): Option<Doc> {
    if id in rows then Some(rows[id]) else None
  }

  function WithRow(rows: Rows, id: Id, row: Option<Doc>): Rows {
    if row.Some? then rows[id := row.value] else rows - {id}
  }

  lemma WithSameRow(rows: Rows, id: Id)
    ensures WithRow(rows, id, RowOf(rows, id)) == rows
  {
  }

  class Repository {
    const versionField: string
    // How the host prints a value that is neither text nor null.
    const print_: Value -> string
    var rows: Rows

    constructor (versionField: string, print_: Value -> string, rows: Rows)
      ensures this.versionField == versionField && this.print_ == print_ && this.rows == rows
    {
      this.versionField, this.print_, this.rows := versionField, print_, rows;
    }

    // One atomic driver call.
    method FindOneAndUpdateById(id: Id, q: Filter, u: Update, upsert: bool) returns (r: Result<Option<Doc>, CasError>)
      modifies `rows
      ensures
        var row := RowOf(old(rows), id);
        var o := if upsert then Upsert(row, q, u) else FindOneAndUpdate(row, q, u);
        r == o.result && rows == WithRow(old(rows), id, o.row)
    {
      var row := RowOf(rows, id);
      var o := if upsert then Upsert(row, q, u) else FindOneAndUpdate(row, q, u);
      rows := WithRow(rows, id, o.row);
      return o.result;
    }

    method Claim(id: Id, t: Transition, patch: Patch, upsert: bool) returns (r: Result<Option<Doc>, CasError>)
      modifies `rows
      ensures
        var row := RowOf(old(rows), id);
        var o := if upsert then ClaimUpsertStep(row, t, patch) else ClaimStep(row, t, patch);
        r == o.result && rows == WithRow(old(rows), id, o.row)
    {
      WithSameRow(rows, id);
      var fromSpec := SourceCond(t.from);
      var filter := Filter(t.where.fields[t.field := fromSpec], t.where.also);
      if Mixed(patch) {
        return Err(MixedPatch);
      }
      var isStateNoop := t.from.One? && t.from.v == t.to;
      var update: Update;
      if patch.ops == NO_UPDATE {
        if isStateNoop {
          update := NO_UPDATE.(set_ := patch.flat);
        } else {
          update := NO_UPDATE.(set_ := patch.flat[t.field := t.to]);
        }
      } else {
        var callerSet := patch.ops.set_;
        if isStateNoop {
          update := patch.ops.(set_ := callerSet);
        } else {
          update := patch.ops.(set_ := callerSet[t.field := t.to]);
        }
      }
      assert update == ClaimUpdate(t, patch);
      if update == NO_UPDATE && upsert {
        update := update.(setOnInsert := map[t.field := t.to]);
        assert t.field in update.setOnInsert;
      }
      if update == NO_UPDATE {
        var row := RowOf(rows, id);
        if row.Some? {
          ApplyNothing(row.value);
          assert FindOneAndUpdate(row, filter, update).row == row;
        }
        return Ok(if row.Some? && Holds(filter, row.value) then row else None);
      }
      r := FindOneAndUpdateById(id, filter, update, upsert);
    }

    function Show(v: Option<Value>): string {
      match v
      case None => "undefined"
      case Some(Null) => "null"
      case Some(Str(s)) => s
      case Some(w) => print_(w)
    }

    // The state of a row as text.
    function StateText(d: Doc, field: string): string {
      Show(if field in d then Some(d[field]) else None)
    }

    // `others` is what other callers write between the compare-and-set and the re-read.
    method ApplyTransition(id: Id, machine: Machine, a: Args, others: Rows -> Rows)
      returns (r: Result<Doc, CasError>)
      modifies `rows
      ensures !Legal(machine, a) ==>
        && rows == old(rows)
        && r.Err? && r.error.IllegalTransition? && r.error.target == a.to
        && r.error.source in SourceStates(a) && Refused(machine, a, r.error.source)
      ensures Legal(machine, a) ==>
        var o := TransitionStep(RowOf(old(rows), id), a);
        if Won(o) then r == Ok(o.row.value) && rows == WithRow(old(rows), id, o.row)
        else if o.result.Err? then r == Err(o.result.error) && rows == old(rows)
        else
          && r.Err? && rows == others(old(rows))
          && (r.error == NotFound <==> id !in rows)
          && (id in rows ==>
                var state := StateText(rows[id], a.field);
                r.error == if state == a.to || (state, a.to) in machine then RaceLost(state)
                           else IllegalTransition(state, a.to))
    {
      var sources := SourceStates(a);
      for i := 0 to |sources|
        invariant forall j | 0 <= j < i :: !Refused(machine, a, sources[j])
      {
        if a.from.Multi? && sources[i] == a.to {
          continue;
        }
        if (sources[i], a.to) !in machine {
          return Err(IllegalTransition(sources[i], a.to));
        }
      }
      var pushSpec := a.push;
      if a.history.Some? {
        pushSpec := pushSpec[a.history.value := HistoryEntry(a)];
      }
      var patch := Patch(map[], Update(a.set_, a.inc, a.unset, pushSpec, map[]));
      ClaimWinsFromSource(RowOf(rows, id), TransitionOf(a), patch);
      WithSameRow(rows, id);
      var updated := Claim(id, TransitionOf(a), patch, false);
      if updated.Err? {
        return Err(updated.error);
      }
      if updated.value.Some? {
        return Ok(updated.value.value);
      }
      rows := others(rows);
      if id !in rows {
        return Err(NotFound);
      }
      var currentState := StateText(rows[id], a.field);
      if currentState != a.to && (currentState, a.to) !in machine {
        return Err(IllegalTransition(currentState, a.to));
      }
      return Err(RaceLost(currentState));
    }

    // update with ifVersion: a miss is re-read to tell a vanished row from a moved version.
    method UpdateIfVersion(id: Id, payload: Patch, ifVersion: int, scope: Filter, throwOnNotFound: bool,
                           others: Rows -> Rows)
      returns (r: Result<Option<Doc>, CasError>)
      modifies `rows
      ensures
        var o := IfVersionStep(RowOf(old(rows), id), scope, versionField, ifVersion, payload);
        if o.result.Err? || Won(o) then r == o.result && rows == WithRow(old(rows), id, o.row)
        else
          && rows == others(old(rows))
          && (r.Err? && r.error.VersionConflict? <==> id in rows && Holds(scope, rows[id]))
          && (r.Err? && r.error.VersionConflict? ==>
                r.error.expected == ifVersion &&
                (match Read(rows[id], versionField)
                 case Num(n) => r.error.actual == Some(n)
                 case _ => r.error.actual == None))
          && (!(id in rows && Holds(scope, rows[id])) ==> r == if throwOnNotFound then Err(NotFound) else Ok(None))
    {
      WithSameRow(rows, id);
      if Mixed(payload) {
        return Err(MixedPatch);
      }
      if !OwnsVersion(payload, versionField) {
        return Err(VersionFieldOwned);
      }
      var casUpdate: Update;
      if payload.ops != NO_UPDATE {
        casUpdate := payload.ops.(inc := payload.ops.inc[versionField := 1]);
      } else {
        casUpdate := NO_UPDATE.(set_ := payload.flat, inc := map[versionField := 1]);
      }
      assert casUpdate == Bumped(AsOperators(payload), versionField, 1);
      r := FindOneAndUpdateById(id, VersionFilter(scope, versionField, Some(ifVersion)), casUpdate, false);
      if r.Ok? && r.value.None? {
        rows := others(rows);
        var current := RowOf(rows, id);
        if current.Some? && Holds(scope, current.value) {
          var actual := match Read(current.value, versionField) case Num(n) => Some(n) case _ => None;
          return Err(VersionConflict(ifVersion, actual));
        }
        if throwOnNotFound {
          return Err(NotFound);
        }
      }
    }

    method ClaimVersion(id: Id, c: VersionClaim) returns (r: Result<Option<Doc>, CasError>)
      modifies `rows
      ensures var o := VersionStep(RowOf(old(rows), id), c);
        r == o.result && rows == WithRow(old(rows), id, o.row)
    {
      WithSameRow(rows, id);
      if Mixed(c.update) {
        return Err(MixedPatch);
      }
      var update := if c.update.ops != NO_UPDATE then c.update.ops else NO_UPDATE.(set_ := c.update.flat);
      if c.from.None? {
        if c.field in update.set_ {
          return Err(VersionFieldOwned);
        }
        if c.field in update.inc {
          return Err(VersionFieldOwned);
        }
        update := update.(set_ := update.set_[c.field := Num(c.step)]);
      } else {
        update := update.(inc := update.inc[c.field := c.step]);
      }
      r := FindOneAndUpdateById(id, VersionFilter(c.where, c.field, c.from), update, false);
    }
  }
}

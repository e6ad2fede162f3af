// The lease queue: workers claim the oldest claimable row, extend and finalise it, each call
// one compare-and-set on the stored rows.

module LeaseProtocol {
  import opened Common

  type Id = nat
  type Worker = string
  type Time = int

  datatype Row = Row(status: string, leasedBy: Option<Worker>, expiresAt: Option<Time>, createdAt: Time)

  type Rows = map<Id, Row>

  datatype Config = Config(pending: string, processing: string, done: string)

  // A caller's filter: its own top-level `$or`, if any, and all the rest of it.
  datatype Filter = Filter(rest: Row -> bool, ownOr: Option<Row -> bool>)

  ghost predicate Satisfies(row: Row, f: Filter) {
    f.rest(row) && (f.ownOr.Some? ==> f.ownOr.value(row))
  }

  predicate Claimable(cfg: Config, row: Row, now: Time) {
    row.status == cfg.pending || (row.expiresAt.Some? && row.expiresAt.value < now)
  }

  // { ...filter, $or: [pending, expired] }: the last `$or` replaces the caller's.
  predicate Candidate(cfg: Config, rows: Rows, f: Filter, now: Time, id: Id) {
    id in rows && f.rest(rows[id]) && Claimable(cfg, rows[id], now)
  }

  // The driver sorts by createdAt and takes the first; ties are the driver's choice.
  predicate Oldest(cfg: Config, rows: Rows, f: Filter, now: Time, id: Id) {
    && Candidate(cfg, rows, f, now, id)
    && forall j | j in rows && Candidate(cfg, rows, f, now, j) :: rows[id].createdAt <= rows[j].createdAt
  }

  predicate LiveHolder(row: Row, w: Worker, now: Time) {
    row.leasedBy == Some(w) && row.expiresAt.Some? && row.expiresAt.value > now
  }

  datatype Event =
    | Enqueue(id: Id, createdAt: Time)
    | Lease(worker: Worker, now: Time, leaseFor: int, filter: Filter, picked: Option<Id>)
    | Extend(id: Id, worker: Worker, now: Time, leaseFor: int)
    | Release(id: Id, worker: Worker, now: Time, finalStatus: string)

  // Clocks are the callers' own and may be stale; nothing relates them across events.
  ghost predicate Legal(cfg: Config, rows: Rows, e: Event) {
    match e
    case Enqueue(id, _) => id !in rows
    case Lease(_, now, leaseFor, f, picked) =>
      && leaseFor > 0
      && (match picked
          case Some(id) => Oldest(cfg, rows, f, now, id)
          case None => forall id | id in rows :: !Candidate(cfg, rows, f, now, id))
    case Extend(_, _, _, leaseFor) => leaseFor > 0
    case Release(_, _, _, _) => true
  }

  predicate Succeeds(rows: Rows, e: Event) {
    match e
    case Enqueue(_, _) => true
    case Lease(_, _, _, _, picked) => picked.Some? && picked.value in rows
    case Extend(id, w, now, _) => id in rows && LiveHolder(rows[id], w, now)
    case Release(id, w, now, _) => id in rows && LiveHolder(rows[id], w, now)
  }

  function Step(cfg: Config, rows: Rows, e: Event): Rows {
    if !Succeeds(rows, e) then rows
    else
      match e
      case Enqueue(id, at) => rows[id := Row(cfg.pending, None, None, at)]
      case Lease(w, now, leaseFor, _, picked) =>
        var id := picked.value;
        rows[id := rows[id].(status := cfg.processing, leasedBy := Some(w), expiresAt := Some(now + leaseFor))]
      case Extend(id, _, now, leaseFor) => rows[id := rows[id].(expiresAt := Some(now + leaseFor))]
      case Release(id, _, _, final) =>
        rows[id := rows[id].(status := final, leasedBy := None, expiresAt := None)]
  }

  function Run(cfg: Config, rows: Rows, events: seq<Event>): Rows
    decreases |events|
  {
    if events == [] then rows else Run(cfg, Step(cfg, rows, events[0]), events[1..])
  }

  ghost predicate LegalRun(cfg: Config, rows: Rows, events: seq<Event>)
    decreases |events|
  {
    events != [] ==> Legal(cfg, rows, events[0]) && LegalRun(cfg, Step(cfg, rows, events[0]), events[1..])
  }

  // ---- Processing iff leased ---------------------------------------------------------

  ghost predicate Consistent(cfg: Config, row: Row) {
    && (row.status == cfg.processing <==> row.expiresAt.Some?)
    && (row.expiresAt.Some? <==> row.leasedBy.Some?)
  }

  ghost predicate Inv(cfg: Config, rows: Rows) {
    forall id | id in rows :: Consistent(cfg, rows[id])
  }

  // A step breaks the invariant exactly when it finalises a row as "processing".
  lemma StepKeepsInv(cfg: Config, rows: Rows, e: Event)
    requires cfg.pending != cfg.processing
    requires Inv(cfg, rows) && Legal(cfg, rows, e)
    ensures Inv(cfg, Step(cfg, rows, e))
      <==> !(e.Release? && Succeeds(rows, e) && e.finalStatus == cfg.processing)
  {
    if e.Release? && Succeeds(rows, e) && e.finalStatus == cfg.processing {
      assert !Consistent(cfg, Step(cfg, rows, e)[e.id]);
    }
  }

  // A row finalised as "processing" carries no expiry, so no step ever touches it again.
  lemma {:induction false} StuckForever(cfg: Config, rows: Rows, events: seq<Event>, id: Id)
    requires cfg.pending != cfg.processing
    requires LegalRun(cfg, rows, events)
    requires id in rows && rows[id].status == cfg.processing && rows[id].expiresAt == None
    ensures id in Run(cfg, rows, events) && Run(cfg, rows, events)[id] == rows[id]
    decreases |events|
  {
    if events != [] {
      StuckForever(cfg, Step(cfg, rows, events[0]), events[1..], id);
    }
  }

  predicate FinalisesAsProcessing(cfg: Config, rows: Rows, e: Event) {
    e.Release? && Succeeds(rows, e) && e.finalStatus == cfg.processing
  }

  ghost predicate SomeFinalisesAsProcessing(cfg: Config, rows: Rows, events: seq<Event>)
    decreases |events|
  {
    events != [] &&
    (|| FinalisesAsProcessing(cfg, rows, events[0])
     || SomeFinalisesAsProcessing(cfg, Step(cfg, rows, events[0]), events[1..]))
  }

  // Main result: a run keeps the invariant exactly when no release in it succeeds with the
  // processing status.
  lemma {:induction false} RunKeepsInv(cfg: Config, rows: Rows, events: seq<Event>)
    requires cfg.pending != cfg.processing
    requires Inv(cfg, rows) && LegalRun(cfg, rows, events)
    ensures Inv(cfg, Run(cfg, rows, events)) <==> !SomeFinalisesAsProcessing(cfg, rows, events)
    decreases |events|
  {
    if events != [] {
      var e, next := events[0], Step(cfg, rows, events[0]);
      StepKeepsInv(cfg, rows, e);
      if FinalisesAsProcessing(cfg, rows, e) {
        StuckForever(cfg, next, events[1..], e.id);
        assert !Consistent(cfg, Run(cfg, next, events[1..])[e.id]);
      } else {
        RunKeepsInv(cfg, next, events[1..]);
      }
    }
  }

  // ---- Hand-over and fencing ---------------------------------------------------------

  // A row goes from one worker to another only by a lease call whose clock is past the
  // expiry stored for the first.
  lemma HandOverAfterExpiry(cfg: Config, rows: Rows, e: Event, id: Id)
    requires cfg.pending != cfg.processing
    requires Inv(cfg, rows) && Legal(cfg, rows, e) && id in rows && rows[id].leasedBy.Some?
    ensures
      var after := Step(cfg, rows, e);
      id in after && after[id].leasedBy != rows[id].leasedBy ==>
        || (e.Release? && e.id == id && LiveHolder(rows[id], e.worker, e.now))
        || (e.Lease? && e.picked == Some(id) && rows[id].expiresAt.value < e.now
            && after[id].leasedBy == Some(e.worker) && after[id].expiresAt == Some(e.now + e.leaseFor))
  {
  }

  predicate Wins(e: Event, w: Worker, id: Id) {
    e.Lease? && e.worker == w && e.picked == Some(id)
  }

  // Main result: a worker that does not hold a row can neither extend nor finalise it until
  // it wins the row again by a lease of its own, whatever the others do.
  lemma {:induction false} LostLeaseStaysLost(
    cfg: Config, rows: Rows, events: seq<Event>, id: Id, w: Worker, now: Time, leaseFor: int, final: string)
    requires LegalRun(cfg, rows, events)
    requires id in rows && rows[id].leasedBy != Some(w)
    requires forall i | 0 <= i < |events| :: !Wins(events[i], w, id)
    ensures
      var after := Run(cfg, rows, events);
      && id in after && after[id].leasedBy != Some(w)
      && !Succeeds(after, Extend(id, w, now, leaseFor)) && !Succeeds(after, Release(id, w, now, final))
      && Step(cfg, after, Extend(id, w, now, leaseFor)) == Step(cfg, after, Release(id, w, now, final)) == after
    decreases |events|
  {
    if events != [] {
      assert !Wins(events[0], w, id);
      LostLeaseStaysLost(cfg, Step(cfg, rows, events[0]), events[1..], id, w, now, leaseFor, final);
    }
  }

  // ---- Finalised once ----------------------------------------------------------------

  predicate Finalised(cfg: Config, row: Row) {
    row.status != cfg.pending && row.expiresAt == None && row.leasedBy == None
  }

  lemma FinalisedIsFixed(cfg: Config, rows: Rows, e: Event, id: Id)
    requires Legal(cfg, rows, e) && id in rows && Finalised(cfg, rows[id])
    ensures id in Step(cfg, rows, e) && Step(cfg, rows, e)[id] == rows[id]
  {
  }

  function Releases(cfg: Config, rows: Rows, events: seq<Event>, id: Id): nat
    decreases |events|
  {
    if events == [] then 0
    else
      (if events[0].Release? && events[0].id == id && Succeeds(rows, events[0]) then 1 else 0)
      + Releases(cfg, Step(cfg, rows, events[0]), events[1..], id)
  }

  function Leases(cfg: Config, rows: Rows, events: seq<Event>, id: Id): nat
    decreases |events|
  {
    if events == [] then 0
    else
      (if events[0].Lease? && events[0].picked == Some(id) && Succeeds(rows, events[0]) then 1 else 0)
      + Leases(cfg, Step(cfg, rows, events[0]), events[1..], id)
  }

  // No release of the row asks for the pending status.
  predicate FinalStatuses(cfg: Config, events: seq<Event>, id: Id) {
    forall i | 0 <= i < |events| && events[i].Release? && events[i].id == id :: events[i].finalStatus != cfg.pending
  }

  // Main result: unless a release of it asks for pending, a row is finalised at most once, and
  // is finalised exactly when a release of it succeeded.
  lemma {:induction false} FinalisedOnce(cfg: Config, rows: Rows, events: seq<Event>, id: Id)
    requires LegalRun(cfg, rows, events) && FinalStatuses(cfg, events, id)
    requires id in rows
    ensures id in Run(cfg, rows, events)
    ensures Releases(cfg, rows, events, id) + (if Finalised(cfg, rows[id]) then 1 else 0)
         == (if Finalised(cfg, Run(cfg, rows, events)[id]) then 1 else 0)
    decreases |events|
  {
    if events != [] {
      assert events[0].Release? && events[0].id == id ==> events[0].finalStatus != cfg.pending;
      FinalisedOnce(cfg, Step(cfg, rows, events[0]), events[1..], id);
    }
  }

  // ... and is never leased, extended or changed again.
  lemma {:induction false} FinalisedForever(cfg: Config, rows: Rows, events: seq<Event>, id: Id)
    requires LegalRun(cfg, rows, events)
    requires id in rows && Finalised(cfg, rows[id])
    ensures id in Run(cfg, rows, events) && Run(cfg, rows, events)[id] == rows[id]
    ensures Leases(cfg, rows, events, id) == 0
    decreases |events|
  {
    if events != [] {
      FinalisedIsFixed(cfg, rows, events[0], id);
      FinalisedForever(cfg, Step(cfg, rows, events[0]), events[1..], id);
    }
  }

  // Releasing with the pending status puts the row back: it can be leased and finalised again.
  lemma PendingFinalStatusRequeues(cfg: Config, rows: Rows, e: Event, id: Id, now: Time)
    requires e.Release? && e.id == id && Succeeds(rows, e)
    ensures Claimable(cfg, Step(cfg, rows, e)[id], now) <==> e.finalStatus == cfg.pending
  {
  }

  // ---- The caller's own `$or` --------------------------------------------------------

  // A row some worker may lease at some moment.
  predicate Leasable(cfg: Config, row: Row) {
    row.status == cfg.pending || row.expiresAt.Some?
  }

  // A row the caller's `$or` alone would keep out.
  ghost predicate OnlyOrExcludes(cfg: Config, f: Filter, row: Row) {
    Leasable(cfg, row) && f.rest(row) && f.ownOr.Some? && !f.ownOr.value(row)
  }

  // Every lease under the filter, on every store, picks a row that satisfies it.
  ghost predicate AlwaysPicksSatisfying(cfg: Config, f: Filter) {
    forall rows, w, now, leaseFor, id | Legal(cfg, rows, Lease(w, now, leaseFor, f, Some(id))) ::
      id in rows && Satisfies(rows[id], f)
  }

  // Whatever the rest of the filter, a row that only its `$or` excludes is leased from the
  // store that holds just that row.
  lemma OwnOrIsDropped(cfg: Config, f: Filter, row: Row, w: Worker, now: Time)
    requires OnlyOrExcludes(cfg, f, row)
    requires row.status != cfg.pending ==> row.expiresAt.value < now
    ensures Legal(cfg, map[0 := row], Lease(w, now, 1, f, Some(0))) && !Satisfies(row, f)
  {
  }

  // Main result: leases respect the caller's whole filter exactly when no row that could be
  // leased meets the rest of it and fails its `$or`.
  lemma PickedSatisfiesFilter(cfg: Config, f: Filter)
    ensures AlwaysPicksSatisfying(cfg, f) <==> forall row :: !OnlyOrExcludes(cfg, f, row)
  {
    if forall row :: !OnlyOrExcludes(cfg, f, row) {
      forall rows: Rows, w, now, leaseFor, id | Legal(cfg, rows, Lease(w, now, leaseFor, f, Some(id)))
        ensures id in rows && Satisfies(rows[id], f)
      {
        assert !OnlyOrExcludes(cfg, f, rows[id]);
      }
    } else {
      var row :| OnlyOrExcludes(cfg, f, row);
      var now := if row.expiresAt.Some? then row.expiresAt.value + 1 else 0;
      OwnOrIsDropped(cfg, f, row, "w", now);
      var rows: Rows := map[0 := row];
      assert Legal(cfg, rows, Lease("w", now, 1, f, Some(0))) && !Satisfies(rows[0], f);
    }
  }
}

module Lease {
  import opened Common
  import opened LeaseProtocol

  datatype Error = BadRequest

  // A non-empty set of rows has an oldest one.
  lemma OldestExists(rows: Rows, left: set<Id>)
    requires left != {} && left <= rows.Keys
    ensures exists id | id in left :: forall j | j in left :: rows[id].createdAt <= rows[j].createdAt
    decreases left
  {
    var x :| x in left;
    if left != {x} {
      var rest := left - {x};
      OldestExists(rows, rest);
      var y :| y in rest && forall j | j in rest :: rows[y].createdAt <= rows[j].createdAt;
      var z := if rows[x].createdAt <= rows[y].createdAt then x else y;
      assert forall j | j in left :: j == x || j in rest;
      assert z in left && forall j | j in left :: rows[z].createdAt <= rows[j].createdAt;
    }
  }

  class LeaseQueue {
    const cfg: Config
    var rows: Rows

    constructor (cfg: Config, rows: Rows)
      ensures this.cfg == cfg && this.rows == rows
    {
      this.cfg, this.rows := cfg, rows;
    }

    // findOneAndUpdate with the claim filter and the FIFO sort.
    method Lease(worker: Worker, now: Time, leaseFor: int, filter: Filter)
      returns (r: Result<Option<Row>, Error>, ghost picked: Option<Id>)
      modifies this`rows
      ensures r.Err? <==> leaseFor <= 0 || worker == ""
      ensures r.Err? ==> rows == old(rows)
      ensures r.Ok? ==> Legal(cfg, old(rows), LeaseProtocol.Lease(worker, now, leaseFor, filter, picked))
      ensures r.Ok? ==> rows == Step(cfg, old(rows), LeaseProtocol.Lease(worker, now, leaseFor, filter, picked))
      ensures r.Ok? ==> r.value == (if picked.Some? then Some(rows[picked.value]) else None)
    {
      picked := None;
      if leaseFor <= 0 || worker == "" {
        return Err(BadRequest), None;
      }
      var left := set id | id in rows && Candidate(cfg, rows, filter, now, id);
      if left == {} {
        forall id | id in rows
          ensures !Candidate(cfg, rows, filter, now, id)
        {
          assert id !in left;
        }
        return Ok(None), None;
      }
      OldestExists(rows, left);
      var id :| id in left && forall j | j in left :: rows[id].createdAt <= rows[j].createdAt;
      assert forall j | j in rows && Candidate(cfg, rows, filter, now, j) :: j in left;
      picked := Some(id);
      var leased := rows[id].(status := cfg.processing, leasedBy := Some(worker), expiresAt := Some(now + leaseFor));
      rows := rows[id := leased];
      r := Ok(Some(rows[id]));
    }

    method Extend(id: Id, worker: Worker, now: Time, leaseFor: int) returns (r: Result<Option<Row>, Error>)
      modifies this`rows
      ensures r.Err? <==> leaseFor <= 0
      ensures r.Err? ==> rows == old(rows)
      ensures r.Ok? ==> rows == Step(cfg, old(rows), LeaseProtocol.Extend(id, worker, now, leaseFor))
      ensures r.Ok? ==> (r.value.Some? <==> Succeeds(old(rows), LeaseProtocol.Extend(id, worker, now, leaseFor)))
      ensures r.Ok? && r.value.Some? ==> id in rows && r.value.value == rows[id]
    {
      if leaseFor <= 0 {
        return Err(BadRequest);
      }
      if id !in rows || !LiveHolder(rows[id], worker, now) {
        return Ok(None);
      }
      rows := rows[id := rows[id].(expiresAt := Some(now + leaseFor))];
      r := Ok(Some(rows[id]));
    }

    method Release(id: Id, worker: Worker, now: Time, finalStatus: Option<string>)
      returns (r: Result<Option<Row>, Error>)
      modifies this`rows
      ensures r.Err? <==> worker == ""
      ensures r.Err? ==> rows == old(rows)
      ensures r.Ok? ==>
        var final := if finalStatus.Some? then finalStatus.value else cfg.done;
        && rows == Step(cfg, old(rows), LeaseProtocol.Release(id, worker, now, final))
        && (r.value.Some? <==> Succeeds(old(rows), LeaseProtocol.Release(id, worker, now, final)))
        && (r.value.Some? ==> id in rows && r.value.value == rows[id] && rows[id].status == final)
    {
      if worker == "" {
        return Err(BadRequest);
      }
      var final := if finalStatus.Some? then finalStatus.value else cfg.done;
      if id !in rows || !LiveHolder(rows[id], worker, now) {
        return Ok(None);
      }
      rows := rows[id := rows[id].(status := final, leasedBy := None, expiresAt := None)];
      r := Ok(Some(rows[id]));
    }
  }
}

// The Mongo-backed lock: one document per lock name, acquired by an upsert whose filter is
// "expired by my clock, or mine". Every replica reads its own clock before the driver call.

module LockProtocol {
  import opened Common

  type Holder = string
  type Time = int

  datatype Doc = Doc(holder: Holder, expiresAt: Time, acquiredAt: Time)

  // `readAt` and `landAt` are true times: when the caller read its clock and when the driver
  // call took effect. `now` is what the clock showed. Sweep is the server's TTL monitor.
  datatype Event =
    | Acquire(holder: Holder, leaseMs: int, readAt: Time, now: Time, landAt: Time)
    | Release(holder: Holder, landAt: Time)
    | Sweep(now: Time, landAt: Time)

  function Lease(leaseMs: int, defaultLeaseMs: int): int {
    if leaseMs > 0 then leaseMs else defaultLeaseMs
  }

  predicate Free(doc: Option<Doc>, h: Holder, now: Time) {
    doc.None? || doc.value.expiresAt < now || doc.value.holder == h
  }

  function Acquired(doc: Option<Doc>, h: Holder, now: Time, ms: int): Doc {
    Doc(h, now + ms, if doc.Some? then doc.value.acquiredAt else now)
  }

  function Step(defaultLeaseMs: int, doc: Option<Doc>, e: Event): (Option<Doc>, bool) {
    match e
    case Acquire(h, leaseMs, _, now, _) =>
      if Free(doc, h, now) then (Some(Acquired(doc, h, now, Lease(leaseMs, defaultLeaseMs))), true)
      else (doc, false)
    case Release(h, _) =>
      if doc.Some? && doc.value.holder == h then (None, true) else (doc, false)
    case Sweep(now, _) =>
      if doc.Some? && doc.value.expiresAt <= now then (None, true) else (doc, false)
  }

  // What inspect answers when it read this document and then a clock showing `now`.
  function Inspected(doc: Option<Doc>, now: Time): Option<Doc> {
    if doc.Some? && doc.value.expiresAt > now then doc else None
  }

  // Clocks are within eps of true time, and a call lands after it read its clock.
  predicate Timed(eps: nat, e: Event) {
    match e
    case Acquire(_, _, readAt, now, landAt) => readAt - eps <= now <= readAt + eps && readAt <= landAt
    case Release(_, _) => true
    case Sweep(now, landAt) => landAt - eps <= now <= landAt + eps
  }

  function Run(defaultLeaseMs: int, doc: Option<Doc>, events: seq<Event>): Option<Doc>
    decreases |events|
  {
    if events == [] then doc else Run(defaultLeaseMs, Step(defaultLeaseMs, doc, events[0]).0, events[1..])
  }

  // No event of a run succeeds for anyone but h in the meantime.
  ghost predicate NobodyElseAcquires(defaultLeaseMs: int, doc: Option<Doc>, events: seq<Event>, h: Holder)
    decreases |events|
  {
    events != [] ==>
      && (events[0].Acquire? && events[0].holder != h ==> !Step(defaultLeaseMs, doc, events[0]).1)
      && NobodyElseAcquires(defaultLeaseMs, Step(defaultLeaseMs, doc, events[0]).0, events[1..], h)
  }

  // True time up to which an acquisition is safe: its clock reading may be eps slow, a
  // rival's eps fast. It counts from the instant the clock was read.
  function SafeUntil(defaultLeaseMs: int, eps: nat, e: Event): Time
    requires e.Acquire?
  {
    e.readAt + Lease(e.leaseMs, defaultLeaseMs) - 2 * eps
  }

  // Main result: until then, unless the holder itself releases or re-acquires, no other
  // holder's tryAcquire succeeds, no sweep removes the lock, and every inspect whose clock is
  // read by then reports the holder.
  lemma {:induction false} HeldUntilSafe(
    defaultLeaseMs: int, eps: nat, a: Event, doc: Option<Doc>, events: seq<Event>, inspectAt: Time, shown: Time)
    requires a.Acquire? && Timed(eps, a)
    requires doc.Some? && doc.value.holder == a.holder
    requires doc.value.expiresAt == a.now + Lease(a.leaseMs, defaultLeaseMs)
    requires forall i | 0 <= i < |events| :: Timed(eps, events[i])
    requires forall i | 0 <= i < |events| :: events[i].landAt < SafeUntil(defaultLeaseMs, eps, a)
    requires forall i | 0 <= i < |events| :: events[i].Sweep? || events[i].holder != a.holder
    requires inspectAt < SafeUntil(defaultLeaseMs, eps, a)
    requires inspectAt - eps <= shown <= inspectAt + eps
    ensures NobodyElseAcquires(defaultLeaseMs, doc, events, a.holder)
    ensures Run(defaultLeaseMs, doc, events) == doc
    ensures Inspected(Run(defaultLeaseMs, doc, events), shown) == doc
    decreases |events|
  {
    if events != [] {
      assert events[0].landAt < SafeUntil(defaultLeaseMs, eps, a) && Timed(eps, events[0]);
      assert Step(defaultLeaseMs, doc, events[0]) == (doc, false);
      HeldUntilSafe(defaultLeaseMs, eps, a, doc, events[1..], inspectAt, shown);
    }
  }

  // The same from the acquisition itself, whatever was stored before it.
  lemma AcquireExcludes(
    defaultLeaseMs: int, eps: nat, before: Option<Doc>, a: Event, events: seq<Event>, rival: Event)
    requires a.Acquire? && Timed(eps, a) && Step(defaultLeaseMs, before, a).1
    requires forall i | 0 <= i < |events| :: Timed(eps, events[i])
    requires forall i | 0 <= i < |events| :: events[i].landAt < SafeUntil(defaultLeaseMs, eps, a)
    requires forall i | 0 <= i < |events| :: events[i].Sweep? || events[i].holder != a.holder
    requires rival.Acquire? && Timed(eps, rival) && rival.holder != a.holder
    requires Step(defaultLeaseMs, Run(defaultLeaseMs, Step(defaultLeaseMs, before, a).0, events), rival).1
    ensures rival.landAt >= SafeUntil(defaultLeaseMs, eps, a)
  {
    var doc := Step(defaultLeaseMs, before, a).0;
    if rival.landAt < SafeUntil(defaultLeaseMs, eps, a) {
      HeldUntilSafe(defaultLeaseMs, eps, a, doc, events, rival.landAt, rival.landAt);
    }
  }

  // The bound is tight, however late the first call landed: a rival with a fast clock takes
  // the lock one tick after it when the holder's clock was slow.
  lemma BoundIsTight(defaultLeaseMs: int, eps: nat, h: Holder, rival: Holder, leaseMs: int, readAt: Time, landAt: Time)
    requires h != rival && readAt <= landAt
    ensures
      var a := Acquire(h, leaseMs, readAt, readAt - eps, landAt);
      var at := SafeUntil(defaultLeaseMs, eps, a) + 1;
      var b := Acquire(rival, leaseMs, at, at + eps, at);
      && Timed(eps, a) && Timed(eps, b)
      && Step(defaultLeaseMs, None, a).1
      && Step(defaultLeaseMs, Step(defaultLeaseMs, None, a).0, b).1
  {
  }

  // ---- Over a whole run ------------------------------------------------------------------

  // The document after the first n events.
  function At(defaultLeaseMs: int, doc: Option<Doc>, events: seq<Event>, n: nat): Option<Doc>
    requires n <= |events|
  {
    Run(defaultLeaseMs, doc, events[..n])
  }

  lemma AtTail(defaultLeaseMs: int, doc: Option<Doc>, events: seq<Event>, n: nat)
    requires n < |events|
    ensures At(defaultLeaseMs, doc, events, n + 1)
      == At(defaultLeaseMs, Step(defaultLeaseMs, doc, events[0]).0, events[1..], n)
  {
    assert events[..n + 1][1..] == events[1..][..n];
  }

  // The ways h loses the lock: its own release, a sweep whose clock is at or past the stored
  // expiry, or a rival whose clock is past it. A release by anyone else is not among them.
  predicate Ends(doc: Option<Doc>, e: Event, h: Holder) {
    doc.Some? && doc.value.holder == h &&
    match e
    case Acquire(rival, _, _, now, _) => rival != h && doc.value.expiresAt < now
    case Release(r, _) => r == h
    case Sweep(now, _) => doc.value.expiresAt <= now
  }

  // Whoever else calls what, a holder keeps the lock through every run without such an event.
  lemma {:induction false} HoldEndsOnlyBy(defaultLeaseMs: int, doc: Option<Doc>, events: seq<Event>, h: Holder)
    requires doc.Some? && doc.value.holder == h
    ensures
      var last := Run(defaultLeaseMs, doc, events);
      !(last.Some? && last.value.holder == h) ==>
        exists i | 0 <= i < |events| :: Ends(At(defaultLeaseMs, doc, events, i), events[i], h)
    decreases |events|
  {
    if events != [] {
      var next := Step(defaultLeaseMs, doc, events[0]).0;
      if next.Some? && next.value.holder == h {
        HoldEndsOnlyBy(defaultLeaseMs, next, events[1..], h);
        if i :| 0 <= i < |events[1..]| && Ends(At(defaultLeaseMs, next, events[1..], i), events[1..][i], h) {
          AtTail(defaultLeaseMs, doc, events, i);
          assert Ends(At(defaultLeaseMs, doc, events, i + 1), events[i + 1], h);
        }
      } else {
        assert At(defaultLeaseMs, doc, events, 0) == doc;
        assert Ends(At(defaultLeaseMs, doc, events, 0), events[0], h);
      }
    }
  }

  // The i-th event inserted the document that has been there ever since.
  ghost predicate LastInsert(defaultLeaseMs: int, doc: Option<Doc>, events: seq<Event>, i: nat)
    requires i < |events|
  {
    && events[i].Acquire? && At(defaultLeaseMs, doc, events, i) == None
    && forall n | i < n <= |events| :: At(defaultLeaseMs, doc, events, n).Some?
  }

  lemma LastInsertInTail(defaultLeaseMs: int, doc: Option<Doc>, events: seq<Event>, i: nat)
    requires i + 1 < |events|
    requires LastInsert(defaultLeaseMs, Step(defaultLeaseMs, doc, events[0]).0, events[1..], i)
    ensures LastInsert(defaultLeaseMs, doc, events, i + 1)
  {
    AtTail(defaultLeaseMs, doc, events, i);
    forall n | i + 1 < n <= |events| ensures At(defaultLeaseMs, doc, events, n).Some? {
      AtTail(defaultLeaseMs, doc, events, n - 1);
    }
  }

  lemma AlwaysThere(defaultLeaseMs: int, doc: Option<Doc>, events: seq<Event>)
    requires events != []
    requires forall n | 0 <= n <= |events[1..]| ::
      At(defaultLeaseMs, Step(defaultLeaseMs, doc, events[0]).0, events[1..], n).Some?
    ensures forall n | 0 < n <= |events| :: At(defaultLeaseMs, doc, events, n).Some?
  {
    forall n | 0 < n <= |events| ensures At(defaultLeaseMs, doc, events, n).Some? {
      AtTail(defaultLeaseMs, doc, events, n - 1);
    }
  }

  // Through extensions and steals alike, `acquiredAt` is the clock reading of the call that
  // last inserted the document, whoever holds the lock now.
  lemma {:induction false} AcquiredAtIsLastInsert(defaultLeaseMs: int, doc: Option<Doc>, events: seq<Event>)
    requires Run(defaultLeaseMs, doc, events).Some?
    ensures
      || (&& doc.Some? && Run(defaultLeaseMs, doc, events).value.acquiredAt == doc.value.acquiredAt
          && forall n | 0 <= n <= |events| :: At(defaultLeaseMs, doc, events, n).Some?)
      || exists i | 0 <= i < |events| ::
           LastInsert(defaultLeaseMs, doc, events, i)
           && Run(defaultLeaseMs, doc, events).value.acquiredAt == events[i].now
    decreases |events|
  {
    assert At(defaultLeaseMs, doc, events, 0) == doc;
    if events != [] {
      var next := Step(defaultLeaseMs, doc, events[0]).0;
      AcquiredAtIsLastInsert(defaultLeaseMs, next, events[1..]);
      var last := Run(defaultLeaseMs, next, events[1..]).value;
      if i :| 0 <= i < |events[1..]| && LastInsert(defaultLeaseMs, next, events[1..], i)
            && last.acquiredAt == events[1..][i].now {
        LastInsertInTail(defaultLeaseMs, doc, events, i);
        assert LastInsert(defaultLeaseMs, doc, events, i + 1);
      } else {
        AlwaysThere(defaultLeaseMs, doc, events);
        if doc.None? {
          assert LastInsert(defaultLeaseMs, doc, events, 0);
        }
      }
    }
  }
}

module MongoLock {
  import opened Common
  import opened LockProtocol

  function Get(docs: map<string, Doc>, name: string): Option<Doc> {
    if name in docs then Some(docs[name]) else None
  }

  datatype Upsert = Wrote(doc: Doc) | DuplicateKey

  class LockAdapter {
    const defaultLeaseMs: int
    var docs: map<string, Doc>

    constructor (defaultLeaseMs: int := 30000)
      ensures docs == map[] && this.defaultLeaseMs == defaultLeaseMs
    {
      this.defaultLeaseMs := defaultLeaseMs;
      docs := map[];
    }

    // findOneAndUpdate with upsert: a filter miss inserts, and inserting over an existing
    // _id is a duplicate-key error.
    method UpsertLock(name: string, holder: Holder, now: Time, expiresAt: Time) returns (u: Upsert)
      modifies this`docs
      ensures u.Wrote? <==> Free(Get(old(docs), name), holder, now)
      ensures u.DuplicateKey? ==> docs == old(docs)
      ensures u.Wrote? ==> u.doc == Acquired(Get(old(docs), name), holder, now, expiresAt - now)
      ensures u.Wrote? ==> docs == old(docs)[name := u.doc]
    {
      if name in docs && (docs[name].expiresAt < now || docs[name].holder == holder) {
        docs := docs[name := docs[name].(holder := holder, expiresAt := expiresAt)];
        return Wrote(docs[name]);
      }
      if name !in docs {
        docs := docs[name := Doc(holder, expiresAt, now)];
        return Wrote(docs[name]);
      }
      return DuplicateKey;
    }

    method TryAcquire(name: string, holder: Holder, leaseMs: int, now: Time) returns (ok: bool)
      modifies this`docs
      ensures forall k | k != name :: Get(docs, k) == Get(old(docs), k)
      ensures forall readAt, landAt ::
        Step(defaultLeaseMs, Get(old(docs), name), Acquire(holder, leaseMs, readAt, now, landAt))
          == (Get(docs, name), ok)
    {
      var ms := if leaseMs > 0 then leaseMs else defaultLeaseMs;
      var u := UpsertLock(name, holder, now, now + ms);
      match u
      case Wrote(doc) => ok := doc.holder == holder;
      case DuplicateKey => ok := false;
    }

    method Release(name: string, holder: Holder) returns (ok: bool)
      modifies this`docs
      ensures forall k | k != name :: Get(docs, k) == Get(old(docs), k)
      ensures forall landAt ::
        Step(defaultLeaseMs, Get(old(docs), name), LockProtocol.Release(holder, landAt)) == (Get(docs, name), ok)
    {
      ok := name in docs && docs[name].holder == holder;
      if ok {
        docs := docs - {name};
      }
    }

    method Inspect(name: string, now: Time) returns (r: Option<Doc>)
      ensures r == Inspected(Get(docs, name), now)
    {
      if name !in docs {
        return None;
      }
      if docs[name].expiresAt <= now {
        return None;
      }
      return Some(docs[name]);
    }
  }
}

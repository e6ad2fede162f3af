// watch(): callbacks of a change stream feed a queue that an async iterator drains.

module WatchProtocol {
  import opened Common

  datatype Change = Change(
    operationType: string,
    id: int,
    fullDocument: Option<string>,
    wallTime: Option<int>,
    clusterSeconds: Option<int>)

  // The time of the change, or the time it is handed to the consumer.
  datatype Stamp = At(ms: int) | OnDelivery

  datatype ChangeEvent = ChangeEvent(operation: string, id: int, doc: Option<string>, timestamp: Stamp)

  function OperationOf(operationType: string): Option<string> {
    if operationType == "insert" then Some("create")
    else if operationType in {"update", "replace", "delete"} then Some(operationType)
    else None
  }

  function TimestampOf(c: Change): Stamp {
    if c.wallTime.Some? then At(c.wallTime.value)
    else if c.clusterSeconds.Some? && c.clusterSeconds.value > 0 then At(c.clusterSeconds.value * 1000)
    else OnDelivery
  }

  function EventOf(c: Change, operation: string): ChangeEvent {
    ChangeEvent(operation, c.id, c.fullDocument, TimestampOf(c))
  }

  // What a consumer should see of a run of changes: those with a known operation, in order.
  function Mapped(changes: seq<Change>): seq<ChangeEvent> {
    if changes == [] then []
    else
      var last := changes[|changes| - 1];
      Mapped(changes[..|changes| - 1])
      + (if OperationOf(last.operationType).Some? then [EventOf(last, OperationOf(last.operationType).value)] else [])
  }

  // Fresh: the generator has not run, so there is no stream yet. Idle: at a yield, the consumer
  // has the turn. Parked: awaiting `notify`. Woken: `notify` was called, the iterator has yet
  // to run on.
  datatype Phase = Fresh | Idle | Parked | Woken | Done

  // Rejected: the signal was aborted before the stream was opened.
  datatype End = Running | Ended | Threw(error: string) | Returned | Rejected

  // The iterator's variables, and the history: the changes it took off the queue and the
  // events it yielded.
  datatype State = State(
    queue: seq<Change>,
    streamError: Option<string>,
    ended: bool,
    aborted: bool,
    phase: Phase,
    end: End,
    taken: seq<Change>,
    yielded: seq<ChangeEvent>)

  datatype Event =
    | OnChange(change: Change)
    | OnError(error: string)
    | OnClose
    | Abort
    | Pull     // the consumer asks for the next event
    | Resume   // the woken iterator runs on
    | Break    // the consumer leaves its loop

  const START := State([], None, false, false, Fresh, Running, [], [])

  function Wake(s: State): State {
    if s.phase == Parked then s.(phase := Woken) else s
  }

  function Shifted(s: State): State
    requires s.queue != []
  {
    s.(queue := s.queue[1..], taken := s.taken + [s.queue[0]])
  }

  // The iterator's loop up to its next yield, park or end.
  function Advance(s: State): State
    decreases |s.queue|
  {
    if s.aborted then s.(phase := Done, end := Ended)
    else if s.queue != [] then
      var change, rest := s.queue[0], Shifted(s);
      match OperationOf(change.operationType)
      case Some(operation) => rest.(yielded := s.yielded + [EventOf(change, operation)], phase := Idle)
      case None => Advance(rest)
    else if s.streamError.Some? then s.(phase := Done, end := Threw(s.streamError.value))
    else if s.ended then s.(phase := Done, end := Ended)
    else s.(phase := Parked)
  }

  // The listeners are attached: the stream is open and not yet closed by the iterator.
  predicate Listening(s: State) {
    s.phase != Fresh && s.phase != Done
  }

  // The first pull opens the stream, unless the signal was aborted before.
  function Open(s: State): State {
    if s.aborted then s.(phase := Done, end := Rejected) else Advance(s)
  }

  function Step(s: State, e: Event): State {
    match e
    case OnChange(c) => if Listening(s) then Wake(s.(queue := s.queue + [c])) else s
    case OnError(error) => if Listening(s) then Wake(s.(streamError := Some(error))) else s
    case OnClose => if Listening(s) then Wake(s.(ended := true)) else s
    case Abort => if Listening(s) then Wake(s.(aborted := true, ended := true)) else s.(aborted := true)
    case Pull => if s.phase == Fresh then Open(s) else if s.phase == Idle then Advance(s) else s
    case Resume => if s.phase == Woken then Advance(s) else s
    case Break => if s.phase in {Fresh, Idle} then s.(phase := Done, end := Returned) else s
  }

  function Run(s: State, events: seq<Event>): State
    decreases |events|
  {
    if events == [] then s else Run(Step(s, events[0]), events[1..])
  }

  // ---- Invariant -----------------------------------------------------------------------

  ghost predicate Inv(s: State) {
    && s.yielded == Mapped(s.taken)
    && (s.phase == Fresh || s.end == Rejected ==> s.taken + s.queue == [])
    && (s.phase == Parked ==> s.queue == [] && s.streamError.None? && !s.ended && !s.aborted)
    && (s.phase == Done <==> s.end != Running)
    && (s.end.Threw? ==> s.queue == [] && s.streamError == Some(s.end.error))
    && (s.end == Ended && !s.aborted ==> s.queue == [] && s.streamError.None? && s.ended)
    && (s.end == Rejected ==> s.aborted)
  }

  lemma MappedSnoc(taken: seq<Change>, c: Change)
    ensures Mapped(taken + [c]) ==
      Mapped(taken)
      + (if OperationOf(c.operationType).Some? then [EventOf(c, OperationOf(c.operationType).value)] else [])
  {
    var all := taken + [c];
    assert all[..|all| - 1] == taken;
  }

  lemma TakingOne(s: State)
    requires s.queue != []
    ensures Shifted(s).taken + Shifted(s).queue == s.taken + s.queue
    ensures
      var operation := OperationOf(s.queue[0].operationType);
      Mapped(Shifted(s).taken) ==
      if operation.Some? then Mapped(s.taken) + [EventOf(s.queue[0], operation.value)] else Mapped(s.taken)
  {
    MappedSnoc(s.taken, s.queue[0]);
    assert Mapped(s.taken) + [] == Mapped(s.taken);
  }

  lemma {:induction false} AdvanceKeepsInv(s: State)
    requires s.yielded == Mapped(s.taken) && s.end == Running
    ensures Inv(Advance(s))
    ensures Advance(s).phase !in {Fresh, Woken} && Advance(s).taken + Advance(s).queue == s.taken + s.queue
    decreases |s.queue|
  {
    if !s.aborted && s.queue != [] {
      TakingOne(s);
      if OperationOf(s.queue[0].operationType).None? {
        AdvanceKeepsInv(Shifted(s));
      }
    }
  }

  lemma StepKeepsInv(s: State, e: Event)
    requires Inv(s)
    ensures Inv(Step(s, e))
  {
    if e == Pull || e == Resume {
      if s.end == Running {
        AdvanceKeepsInv(s);
      }
    }
  }

  lemma {:induction false} RunKeepsInv(s: State, events: seq<Event>)
    requires Inv(s)
    ensures Inv(Run(s, events))
    decreases |events|
  {
    if events != [] {
      StepKeepsInv(s, events[0]);
      RunKeepsInv(Step(s, events[0]), events[1..]);
    }
  }

  // The changes that arrive while the iterator listens.
  function Arrived(s: State, events: seq<Event>): seq<Change>
    decreases |events|
  {
    if events == [] then []
    else
      (if events[0].OnChange? && Listening(s) then [events[0].change] else [])
      + Arrived(Step(s, events[0]), events[1..])
  }

  lemma StepReceives(s: State, e: Event)
    requires Inv(s)
    ensures Step(s, e).taken + Step(s, e).queue ==
      s.taken + s.queue + if e.OnChange? && Listening(s) then [e.change] else []
  {
    if e == Pull || e == Resume {
      if s.end == Running {
        AdvanceKeepsInv(s);
      }
    }
  }

  // No change is lost, repeated or reordered on its way through the queue.
  lemma {:induction false} NothingLost(s: State, events: seq<Event>)
    requires Inv(s)
    ensures Run(s, events).taken + Run(s, events).queue == s.taken + s.queue + Arrived(s, events)
    decreases |events|
  {
    if events != [] {
      StepKeepsInv(s, events[0]);
      StepReceives(s, events[0]);
      NothingLost(Step(s, events[0]), events[1..]);
    }
  }

  // ---- What every run guarantees -------------------------------------------------------

  // Main result: the consumer has seen the mapped form of a prefix of the changes that
  // arrived; it is parked only when there is nothing to deliver and no end to report; unless
  // it was aborted, the iterator ends or throws only after everything was delivered; it rejects
  // only when it was aborted before anything could arrive.
  lemma DeliversInOrder(events: seq<Event>)
    ensures
      var s, arrived := Run(START, events), Arrived(START, events);
      && s.taken <= arrived && s.yielded == Mapped(s.taken)
      && (s.phase == Parked ==> s.taken == arrived && s.queue == [] && s.streamError.None? && !s.ended)
      && (s.end.Threw? || (s.end == Ended && !s.aborted) ==> s.yielded == Mapped(arrived))
      && (s.end == Rejected ==> s.aborted && arrived == [])
  {
    RunKeepsInv(START, events);
    NothingLost(START, events);
    var s := Run(START, events);
    assert START.taken + START.queue + Arrived(START, events) == Arrived(START, events);
    assert s.queue == [] ==> s.taken + s.queue == s.taken;
  }

  // With changes pending and no abort, a turn delivers one of them or finds only changes of
  // unknown operations; either way the queue is shorter.
  lemma {:induction false} TurnMakesProgress(s: State)
    requires s.queue != [] && !s.aborted
    ensures |Advance(s).queue| < |s.queue| && !Advance(s).aborted
    ensures Advance(s).phase == Idle ==> |Advance(s).yielded| == |s.yielded| + 1
    ensures Advance(s).phase != Idle ==> Advance(s).yielded == s.yielded && Advance(s).queue == []
    decreases |s.queue|
  {
    var rest := Shifted(s);
    if OperationOf(s.queue[0].operationType).None? && rest.queue != [] {
      TurnMakesProgress(rest);
    }
  }

  function Pulls(n: nat): seq<Event> {
    seq(n, i requires 0 <= i < n => Pull)
  }

  lemma PullsUnfold(s: State, n: nat)
    requires n > 0
    ensures Run(s, Pulls(n)) == Run(Step(s, Pull), Pulls(n - 1))
  {
    assert Pulls(n)[0] == Pull && Pulls(n)[1..] == Pulls(n - 1);
  }

  // A turn that ends at a yield took something off the queue.
  lemma DeliveringTurn(s: State)
    requires Inv(s) && s.phase == Idle && !s.aborted && Advance(s).phase == Idle
    ensures Inv(Advance(s)) && !Advance(s).aborted && |Advance(s).queue| < |s.queue|
    ensures Advance(s).taken + Advance(s).queue == s.taken + s.queue
  {
    AdvanceKeepsInv(s);
    if s.queue != [] {
      TurnMakesProgress(s);
    }
  }

  // A turn that parks or ends left nothing to deliver.
  lemma LastTurn(s: State)
    requires Inv(s) && s.phase == Idle && !s.aborted && Advance(s).phase != Idle
    ensures Inv(Advance(s))
    ensures Advance(s).phase in {Parked, Done} && Advance(s).queue == []
    ensures Advance(s).yielded == Mapped(s.taken + s.queue)
  {
    AdvanceKeepsInv(s);
    if s.queue != [] {
      TurnMakesProgress(s);
    }
    assert Advance(s).taken + [] == Advance(s).taken;
  }

  lemma PullTurn(s: State) returns (next: State)
    requires Inv(s) && s.phase == Idle && !s.aborted
    ensures next == Step(s, Pull) && Inv(next)
    ensures next.phase == Idle ==>
      !next.aborted && |next.queue| < |s.queue| && Mapped(next.taken + next.queue) == Mapped(s.taken + s.queue)
    ensures next.phase != Idle ==>
      next.phase in {Parked, Done} && next.queue == [] && next.yielded == Mapped(s.taken + s.queue)
  {
    next := Advance(s);
    if next.phase == Idle {
      DeliveringTurn(s);
    } else {
      LastTurn(s);
    }
  }

  // A consumer that keeps pulling receives everything queued, also after an error or a close.
  lemma {:induction false} PullsDeliverAll(s: State, n: nat)
    requires Inv(s) && s.phase == Idle && !s.aborted && n >= |s.queue| + 1
    ensures Run(s, Pulls(n)).queue == []
    ensures Run(s, Pulls(n)).yielded == Mapped(s.taken + s.queue)
    decreases n
  {
    PullsUnfold(s, n);
    var next := PullTurn(s);
    if next.phase == Idle {
      PullsDeliverAll(next, n - 1);
    } else {
      PullsIgnored(next, n - 1);
    }
  }

  lemma {:induction false} PullsIgnored(s: State, n: nat)
    requires s.phase in {Parked, Woken, Done}
    ensures Run(s, Pulls(n)) == s
    decreases n
  {
    if n > 0 {
      PullsUnfold(s, n);
      PullsIgnored(s, n - 1);
    }
  }
}

module Watch {
  import opened Common
  import opened WatchProtocol

  class ChangeFeed {
    var queue: seq<Change>
    var streamError: Option<string>
    var ended: bool
    var aborted: bool
    var phase: Phase
    var end: End
    ghost var taken: seq<Change>
    var yielded: seq<ChangeEvent>

    ghost function Contents(): State
      reads this
    {
      State(queue, streamError, ended, aborted, phase, end, taken, yielded)
    }

    constructor ()
      ensures Contents() == START
    {
      queue, streamError, ended, aborted := [], None, false, false;
      phase, end, taken, yielded := Fresh, Running, [], [];
    }

    method WakeUp()
      modifies `phase
      ensures Contents() == Wake(old(Contents()))
    {
      if phase == Parked {
        phase := Woken;
      }
    }

    method ChangeArrived(change: Change)
      modifies this
      ensures Contents() == Step(old(Contents()), OnChange(change))
    {
      if phase != Fresh && phase != Done {
        queue := queue + [change];
        WakeUp();
      }
    }

    method ErrorArrived(error: string)
      modifies this
      ensures Contents() == Step(old(Contents()), OnError(error))
    {
      if phase != Fresh && phase != Done {
        streamError := Some(error);
        WakeUp();
      }
    }

    method Closed()
      modifies this
      ensures Contents() == Step(old(Contents()), OnClose)
    {
      if phase != Fresh && phase != Done {
        ended := true;
        WakeUp();
      }
    }

    method Aborted()
      modifies this
      ensures Contents() == Step(old(Contents()), Abort)
    {
      aborted := true;
      if phase != Fresh && phase != Done {
        ended := true;
        WakeUp();
      }
    }

    // The loop of the iterator until it yields, parks or ends.
    method RunOn()
      requires phase in {Fresh, Idle, Woken}
      modifies this
      ensures Contents() == Advance(old(Contents()))
    {
      while true
        invariant Advance(Contents()) == Advance(old(Contents()))
        decreases |queue|
      {
        if aborted {
          phase, end := Done, Ended;
          return;
        }
        if queue != [] {
          var change := queue[0];
          queue, taken := queue[1..], taken + [change];
          var operation := OperationOf(change.operationType);
          if operation.None? {
            continue;
          }
          yielded := yielded + [EventOf(change, operation.value)];
          phase := Idle;
          return;
        }
        if streamError.Some? {
          phase, end := Done, Threw(streamError.value);
          return;
        }
        if ended {
          phase, end := Done, Ended;
          return;
        }
        phase := Parked;
        return;
      }
    }

    // The consumer asks for the next event; the first time, this opens the stream.
    method Next()
      modifies this
      ensures Contents() == Step(old(Contents()), Pull)
    {
      if phase == Fresh && aborted {
        phase, end := Done, Rejected;
      } else if phase in {Fresh, Idle} {
        RunOn();
      }
    }

    // A notified iterator goes on where it was parked.
    method Continue()
      modifies this
      ensures Contents() == Step(old(Contents()), Resume)
    {
      if phase == Woken {
        RunOn();
      }
    }

    // The consumer breaks out of its loop.
    method Leave()
      modifies this
      ensures Contents() == Step(old(Contents()), Break)
    {
      if phase in {Fresh, Idle} {
        phase, end := Done, Returned;
      }
    }
  }
}

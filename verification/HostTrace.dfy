/** What the client and the host of a command asked of their environment, in which order, and what they were told.

A trace is what the calls themselves record. `Leads` is the order in which the code may make them; the last event of
a run decides what is reported. */
module HostTrace {
  import opened Common

  const RETRY_NS: nat := 10_000_000
  const IO_TIMEOUT_NS: nat := 5_000_000_000
  const OWNER_TIMEOUT_NS: nat := 1_000_000_000
  const IDLE_TIMEOUT_NS: nat := 900_000_000_000

  datatype Call =
    // the client
    | Build | FirstBudget | FirstConnect
    | LockClock | StartLock | LockPause | LockedClock
    | SecondConnect | Spawn
    | ChildClock | ChildPoll | ChildConnect | ChildPause
    | LastBudget | WritePiece | ReplyRead
    // the host
    | Parent | OwnerClock | OwnerLock | OwnerPause | OwnedClock
    | SocketCheck | RemoveSocket | BindSocket
    | Arrival | Accepting | FrameRead | Checks | BodyClock | Body | ReplySent

  /** `Nothing` is no listener, no lock, no socket, no connection, or a frame that is no request; `Late` is a deadline
  found passed. */
  datatype Answer = Good | Nothing | Late | Fault

  datatype Event = Asked(call: Call, answer: Answer, at: nat, limit: nat)

  /** The deadlines of a run: the command's own, and that of connecting or of taking the owner lock. */
  datatype Limits = Limits(expires: nat, locking: nat)

  predicate IsClock(call: Call) {
    || call.FirstBudget? || call.LockClock? || call.LockedClock? || call.ChildClock? || call.LastBudget?
    || call.OwnerClock? || call.OwnedClock? || call.LockPause? || call.OwnerPause?
  }

  predicate IsConnect(call: Call) {
    call.FirstConnect? || call.SecondConnect? || call.ChildConnect?
  }

  function LimitOf(call: Call, limits: Limits): nat {
    if call.FirstBudget? || call.LastBudget? then limits.expires else limits.locking
  }

  /** Deadlines are found passed exactly when they have. */
  predicate WellTimed(event: Event, limits: Limits) {
    && (IsClock(event.call) ==>
          && event.limit == LimitOf(event.call, limits) && (event.answer.Late? || event.answer.Good?)
          && (event.answer.Late? <==> event.limit <= event.at))
    && (event.answer.Late? ==>
          && (IsClock(event.call) || IsConnect(event.call) || event.call.Arrival?) && event.limit <= event.at
          && (IsConnect(event.call) ==> event.limit == limits.locking))
  }

  predicate Was(event: Event, call: Call, answer: Answer) {
    event.call == call && event.answer == answer
  }

  datatype Turn = Open | Closed

  function OpenIf(allowed: bool): Turn {
    if allowed then Open else Closed
  }

  /** After which events a call may come. Nothing comes after a failure of the client, or of the host before it
  listens; a connection that failed leads back to the next arrival. */
  function TurnOf(event: Event, call: Call): Turn {
    var last := event.call;
    var good, nothing, fault := event.answer.Good?, event.answer.Nothing?, event.answer.Fault?;
    match call
    case Build => Closed
    case FirstBudget => OpenIf(last.Build? && good)
    case FirstConnect => OpenIf(last.FirstBudget? && good)
    case LockClock => OpenIf((last.FirstConnect? && nothing) || (last.LockPause? && good))
    case StartLock => OpenIf(last.LockClock? && good)
    case LockPause => OpenIf(last.StartLock? && nothing)
    case LockedClock => OpenIf(last.StartLock? && good)
    case SecondConnect => OpenIf(last.LockedClock? && good)
    case Spawn => OpenIf(last.SecondConnect? && nothing)
    case ChildClock => OpenIf((last.Spawn? && good) || (last.ChildPause? && good))
    case ChildPoll => OpenIf(last.ChildClock? && good)
    case ChildConnect => OpenIf(last.ChildPoll? && good)
    case ChildPause => OpenIf(last.ChildConnect? && nothing)
    case LastBudget => OpenIf(IsConnect(last) && good)
    case WritePiece => OpenIf((last.LastBudget? || last.WritePiece?) && good)
    case ReplyRead => OpenIf(last.WritePiece? && good)
    case Parent => Closed
    case OwnerClock => OpenIf((last.Parent? || last.OwnerPause?) && good)
    case OwnerLock => OpenIf(last.OwnerClock? && good)
    case OwnerPause => OpenIf(last.OwnerLock? && nothing)
    case OwnedClock => OpenIf(last.OwnerLock? && good)
    case SocketCheck => OpenIf(last.OwnedClock? && good)
    case RemoveSocket => OpenIf(last.SocketCheck? && good)
    case BindSocket => OpenIf((last.SocketCheck? && nothing) || (last.RemoveSocket? && good))
    case Arrival =>
      OpenIf((last.BindSocket? && good) || (last.Accepting? && nothing) || (last.FrameRead? && fault)
             || (last.ReplySent? && (good || fault)))
    case Accepting => OpenIf(last.Arrival? && good)
    case FrameRead => OpenIf(last.Accepting? && good)
    case Checks => OpenIf(last.FrameRead? && good)
    case BodyClock => OpenIf(last.Checks? && good)
    case Body => OpenIf(last.BodyClock? && good)
    case ReplySent =>
      OpenIf((last.FrameRead? && nothing) || ((last.Checks? || last.BodyClock?) && fault) || (last.Body? && good))
  }

  predicate Leads(event: Event, call: Call) {
    TurnOf(event, call).Open?
  }

  /** When the code may go on after an event: at once, or after the pause it took. */
  function Earliest(event: Event): nat {
    if event.answer.Good? && (event.call.LockPause? || event.call.OwnerPause?) then
      if event.at + RETRY_NS < event.limit then event.at + RETRY_NS else event.limit
    else if event.call.ChildPause? then event.at + RETRY_NS
    else event.at
  }

  /** The time a client gives itself to connect: what is left of its budget, but not more than the I/O time-out. */
  function ConnectBudget(expires: nat, now: nat): nat {
    if expires <= now then 0
    else if expires - now < IO_TIMEOUT_NS then expires - now
    else IO_TIMEOUT_NS
  }

  /** Where the deadlines come from: connecting gets its budget when the command's own was looked at, the owner lock
  its second when the host began. */
  predicate Budgeted(last: Event, call: Call, limits: Limits) {
    && (call.FirstConnect? ==> limits.locking == last.at + ConnectBudget(limits.expires, last.at))
    && (call.OwnerClock? && last.call.Parent? ==> limits.locking == last.at + OWNER_TIMEOUT_NS)
  }

  predicate StartsWith(call: Call) {
    call.Build? || call.Parent?
  }

  /** An event may stand where it does. */
  ghost predicate StepOk(events: seq<Event>, i: nat, limits: Limits)
    requires i < |events|
  {
    && WellTimed(events[i], limits)
    && if i == 0 then StartsWith(events[i].call)
       else
         && Leads(events[i - 1], events[i].call) && Earliest(events[i - 1]) <= events[i].at
         && Budgeted(events[i - 1], events[i].call, limits)
         && (events[i].call.Arrival? ==> events[i - 1].at + IDLE_TIMEOUT_NS <= events[i].limit)
  }

  datatype Record = Record(events: seq<Event>, limits: Limits)

  ghost predicate InOrder(record: Record) {
    forall i: nat :: i < |record.events| ==> StepOk(record.events, i, record.limits)
  }

  /** The calls of one run so far. */
  type Run = r: Record | InOrder(r) ghost witness Record([], Limits(0, 0))

  /** The run so far may go on with a call, at that time. */
  ghost predicate MayCome(run: Run, call: Call, now: nat) {
    if run.events == [] then StartsWith(call)
    else
      var last := run.events[|run.events| - 1];
      Leads(last, call) && Earliest(last) <= now && Budgeted(last, call, run.limits)
  }

  ghost function Longer(run: Run, event: Event): (r: Run)
    requires MayCome(run, event.call, event.at) && WellTimed(event, run.limits)
    requires event.call.Arrival? ==>
               run.events != [] && run.events[|run.events| - 1].at + IDLE_TIMEOUT_NS <= event.limit
    ensures r == Record(run.events + [event], run.limits)
  {
    OneMore(run, event);
    Record(run.events + [event], run.limits)
  }

  lemma OneMore(run: Run, event: Event)
    requires MayCome(run, event.call, event.at) && WellTimed(event, run.limits)
    requires event.call.Arrival? ==>
               run.events != [] && run.events[|run.events| - 1].at + IDLE_TIMEOUT_NS <= event.limit
    ensures InOrder(Record(run.events + [event], run.limits))
  {
    var events := run.events + [event];
    forall i: nat | i < |events|
      ensures StepOk(events, i, run.limits)
    {
      if i < |run.events| {
        assert StepOk(run.events, i, run.limits);
      }
    }
  }

  /** Before anything is to be done by it, the deadline of connecting or locking does not matter. */
  ghost function WithLock(run: Run, locking: nat): (same: Run)
    requires run.events != [] && run.events[|run.events| - 1].call.FirstBudget?
    ensures same == Record(run.events, run.limits.(locking := locking))
  {
    SameStart(run, locking);
    Record(run.events, run.limits.(locking := locking))
  }

  lemma SameStart(run: Run, locking: nat)
    requires run.events != [] && run.events[|run.events| - 1].call.FirstBudget?
    ensures InOrder(Record(run.events, run.limits.(locking := locking)))
  {
    var n, limits := |run.events| - 1, run.limits.(locking := locking);
    assert StepOk(run.events, n, run.limits) && StepOk(run.events, n - 1, run.limits);
    forall i: nat | i < |run.events|
      ensures StepOk(run.events, i, limits)
    {
      assert StepOk(run.events, i, run.limits);
    }
  }

  /** A host is spawned only after two connect attempts that found no listener, the second of them under the start
  lock. */
  lemma SpawnFollowsTwoConnects(run: Run, i: nat) returns (first: nat, lock: nat)
    requires i < |run.events| && run.events[i].call.Spawn?
    ensures first < lock < i - 1 && Was(run.events[i - 1], SecondConnect, Nothing)
    ensures Was(run.events[lock], StartLock, Good) && Was(run.events[first], FirstConnect, Nothing)
  {
    assert StepOk(run.events, i, run.limits);
    assert StepOk(run.events, i - 1, run.limits);
    assert StepOk(run.events, i - 2, run.limits);
    lock := i - 3;
    first := LockFollowsConnect(run, lock);
  }

  lemma {:induction false} LockFollowsConnect(run: Run, i: nat) returns (first: nat)
    requires i < |run.events|
    requires run.events[i].call.StartLock? || run.events[i].call.LockClock? || run.events[i].call.LockPause?
    ensures first < i && Was(run.events[first], FirstConnect, Nothing)
    decreases i
  {
    assert StepOk(run.events, i, run.limits);
    if run.events[i - 1].call.FirstConnect? {
      first := i - 1;
    } else {
      first := LockFollowsConnect(run, i - 1);
    }
  }
}

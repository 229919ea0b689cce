/** What replacing a file asked of the file system, in which order, and how it was answered.

A trace is what the calls themselves record; its last event decides how a write ends. */
module FileTrace {
  import opened Common

  const MAX_NAMES: nat := 32

  /** `Prepare` is everything about the parent directory and the destination before a temporary is made. */
  datatype Call = Prepare | Create | Validate | WriteData | SyncData | Replace | Reopen | SyncParent | Remove

  /** `Exists` is a temporary name that is taken. */
  datatype Answer = Done | Exists | Refused

  datatype Event = Asked(call: Call, answer: Answer)

  datatype Turn = Open | Closed

  function OpenIf(allowed: bool): Turn {
    if allowed then Open else Closed
  }

  /** After which events a call may come: only a taken name is tried again, and only a write that was begun is cleaned
  up after. */
  function TurnOf(event: Event, call: Call): Turn {
    match call
    case Prepare => Closed
    case Create => OpenIf((event.call.Prepare? && event.answer.Done?) || (event.call.Create? && event.answer.Exists?))
    case Validate => OpenIf(event.call.Create? && event.answer.Done?)
    case WriteData => OpenIf((event.call.Validate? || event.call.WriteData?) && event.answer.Done?)
    case SyncData => OpenIf((event.call.Validate? || event.call.WriteData?) && event.answer.Done?)
    case Replace => OpenIf(event.call.SyncData? && event.answer.Done?)
    case Reopen => OpenIf(event.call.Replace? && event.answer.Done?)
    case SyncParent => OpenIf(event.call.Reopen? && event.answer.Done?)
    case Remove => OpenIf(Begun(event.call) && event.answer.Refused?)
  }

  predicate Leads(event: Event, call: Call) {
    TurnOf(event, call).Open?
  }

  /** The calls after which a failure is cleaned up. */
  predicate Begun(call: Call) {
    call.WriteData? || call.SyncData? || call.Replace? || call.Reopen? || call.SyncParent?
  }

  ghost predicate StepOk(events: seq<Event>, i: nat)
    requires i < |events|
  {
    && (events[i].answer.Exists? ==> events[i].call.Create?) && (events[i].call.Create? ==> i <= MAX_NAMES)
    && if i == 0 then events[i].call.Prepare? else Leads(events[i - 1], events[i].call)
  }

  ghost predicate InOrder(events: seq<Event>) {
    forall i: nat :: i < |events| ==> StepOk(events, i)
  }

  /** The calls of one write so far. */
  type Run = events: seq<Event> | InOrder(events) ghost witness []

  predicate MayCome(run: Run, call: Call) {
    && (if run == [] then call.Prepare? else Leads(run[|run| - 1], call))
    && (call.Create? ==> |run| <= MAX_NAMES)
  }

  ghost function Longer(run: Run, event: Event): (r: Run)
    requires MayCome(run, event.call) && (event.answer.Exists? ==> event.call.Create?)
    ensures r == run + [event]
  {
    OneMore(run, event);
    run + [event]
  }

  lemma OneMore(run: Run, event: Event)
    requires MayCome(run, event.call) && (event.answer.Exists? ==> event.call.Create?)
    ensures InOrder(run + [event])
  {
    var longer := run + [event];
    forall i: nat | i < |longer|
      ensures StepOk(longer, i)
    {
      if i < |run| {
        assert StepOk(run, i);
      }
    }
  }

  /** How a write ends, from its last call: only a synced parent is a success, and everything else is over with the
  refusal before a temporary was begun, with the last of the names, or with the removal after a refusal. */
  datatype Verdict = Success | NoTemporary | LeftInvalid | CleanedUp | NotCleanedUp | Unfinished

  function VerdictOf(run: Run): Verdict {
    if run == [] then Unfinished
    else
      var last := run[|run| - 1];
      match last.call
      case SyncParent => if last.answer.Done? then Success else Unfinished
      case Prepare => if last.answer.Refused? then NoTemporary else Unfinished
      case Create =>
        if last.answer.Refused? || (last.answer.Exists? && |run| > MAX_NAMES) then NoTemporary else Unfinished
      case Validate => if last.answer.Refused? then LeftInvalid else Unfinished
      case Remove => if last.answer.Done? then CleanedUp else NotCleanedUp
      case _ => Unfinished
  }

  /** The directory is synced only after a rename of a completely synced file: the calls of a success, without the
  taken names and the pieces written. */
  lemma SuccessOrder(run: Run)
    requires VerdictOf(run) == Success
    ensures var n := |run|;
            n >= 5 && run[n - 2] == Asked(Reopen, Done) && run[n - 3] == Asked(Replace, Done)
            && run[n - 4] == Asked(SyncData, Done)
            && run[n - 5].answer.Done? && (run[n - 5].call.Validate? || run[n - 5].call.WriteData?)
  {
    var n := |run|;
    assert StepOk(run, n - 1);
    assert StepOk(run, n - 2);
    assert StepOk(run, n - 3);
    assert StepOk(run, n - 4);
  }
}

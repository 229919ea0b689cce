/** The platform adapter as an oracle: every answer is arbitrary, every call is recorded.

The log is the only thing the action pipeline can be held to, so the contracts of `PostAction` and
`RefAction` speak about the events appended to it. */
module AdapterModel {
  import opened Common
  import opened Utf16

  type Text = seq<Scalar>
  type Handle = nat
  type Instant = nat

  const MS: nat := 1_000_000

  datatype Disposition = Unknown | NotDelivered | Uncertain | DeliveredUnverified | DeliveredVerified

  datatype ErrorCode =
    | StaleRef | AmbiguousTarget | TimedOut | AppUnresponsive | PermDenied | AppNotFound | ActionNotSupported
    | InvalidArgs | PolicyDenied | Internal | ActionFailed | OtherCode

  datatype Retryability = Unspecified | Retryable | NonRetryable

  datatype CheckName = Visible | Stability | ReceivesEvents | OtherCheck

  datatype CheckStatus = Pass | Fail | Undecided

  datatype Check = Check(name: CheckName, status: CheckStatus)

  /** `checks` is the actionability report, if any; `incompleteRead` says the live read was incomplete;
  `scrolled` is the preparatory_scroll detail. */
  datatype Error = Error(
    code: ErrorCode,
    disposition: Disposition,
    retryability: Retryability,
    checks: Option<seq<Check>>,
    incompleteRead: bool,
    scrolled: bool)

  datatype Result<+T> = Ok(value: T) | Err(error: Error)

  datatype Action =
    | Click | DoubleClick | RightClick | TripleClick
    | SetValue(text: Text) | SetFocus | Expand | Collapse | Select
    | Toggle | SetChecked | SetUnchecked
    | Scroll | ScrollTo | PressKey | KeyDown | KeyUp
    | TypeText(text: Text) | Clear | Hover | Drag
  {
    predicate WritesValue() {
      SetValue? || Clear? || TypeText?
    }

    predicate RequiresReadback() {
      WritesValue() || SetChecked? || SetUnchecked? || Toggle? || Expand? || Collapse?
    }

    predicate RequiresScrollIntoView() {
      || Click? || DoubleClick? || RightClick? || TripleClick? || SetValue? || Expand? || Collapse? || Select?
      || Toggle? || SetChecked? || SetUnchecked? || TypeText? || Clear? || Hover? || Drag? || Scroll?
    }
  }

  datatype LiveElement = LiveElement(
    numericRole: bool,
    value: Option<Text>,
    focused: bool,
    checkedState: bool,
    indeterminate: bool,
    expanded: bool,
    statesComplete: bool)

  datatype Scope = Unavailable | ElementState | ElementValue

  /** A result never says uncertain or unknown: deserialization and the constructors refuse those. */
  datatype RawResult = RawResult(disposition: Disposition, state: Option<LiveElement>, scope: Option<Scope>)

  type ActionResult = r: RawResult |
    r.disposition.NotDelivered? || r.disposition.DeliveredUnverified? || r.disposition.DeliveredVerified?
    witness RawResult(NotDelivered, None, None)

  function DispositionOf(outcome: Result<ActionResult>): Disposition {
    match outcome
    case Ok(result) => result.disposition
    case Err(error) => error.disposition
  }

  datatype Bounds = Bounds(x: real, y: real, width: real, height: real)

  datatype Delivery = Semantic | Physical | NoPointer

  datatype Event =
    | Resolved(outcome: Result<Handle>)
    | Checked(handle: Handle, strict: bool, verdict: Result<Delivery>)
    | ScrolledIntoView(handle: Handle, done: Result<()>)
    | ReadBounds(handle: Handle, found: Result<Option<Bounds>>, at: Instant)
    | ReadElement(handle: Handle, seen: Result<LiveElement>)
    | ReadSelection(handle: Handle, range: Option<Range>)
    | Executed(handle: Handle, action: Action, headed: bool, result: Result<ActionResult>)
    | Slept(start: Instant, duration: nat)
    | TraceRefused(error: Error)
    | LeaseAsked(granted: Result<()>, at: Instant)
    | WindowFocused(focused: Result<()>)

  class Adapter {
    var log: seq<Event>
    var now: Instant
    /** The numeric readback comparison of sliders and the like. */
    const numericMatch: (Text, Text) -> bool

    constructor (now: Instant, numericMatch: (Text, Text) -> bool)
      ensures log == [] && this.now == now
    {
      this.log, this.now, this.numericMatch := [], now, numericMatch;
    }

    method ReadClock() returns (time: Instant)
      modifies this`now
      ensures old(now) <= now == time
    {
      var later: int := *;
      if later > 0 {
        now := now + later;
      }
      time := now;
    }

    method Record(event: Event)
      modifies this
      ensures log == old(log) + [event] && old(now) <= now
    {
      log := log + [event];
      var _ := ReadClock();
    }

    method ResolveElement() returns (r: Result<Handle>)
      modifies this
      ensures log == old(log) + [Resolved(r)] && old(now) <= now
    {
      r := *;
      Record(Resolved(r));
    }

    method ScrollIntoView(handle: Handle) returns (r: Result<()>)
      modifies this
      ensures log == old(log) + [ScrolledIntoView(handle, r)] && old(now) <= now
    {
      r := *;
      Record(ScrolledIntoView(handle, r));
    }

    /** The actionability check; a refusal may come from tracing as well as from the report. */
    method CheckActionability(handle: Handle, strict: bool) returns (r: Result<Delivery>)
      modifies this
      ensures log == old(log) + [Checked(handle, strict, r)] && old(now) <= now
    {
      r := *;
      Record(Checked(handle, strict, r));
    }

    /** The answer, and the clock read right after it. */
    method AcquireLease(deadline: Instant) returns (r: Result<()>, at: Instant)
      modifies this
      ensures log == old(log) + [LeaseAsked(r, at)] && old(now) <= at <= now
    {
      r := *;
      at := ReadClock();
      Record(LeaseAsked(r, at));
    }

    method FocusWindow() returns (r: Result<()>)
      modifies this
      ensures log == old(log) + [WindowFocused(r)] && old(now) <= now
    {
      r := *;
      Record(WindowFocused(r));
    }

    /** The bounds, and the clock read right after them. */
    method ElementBounds(handle: Handle) returns (r: Result<Option<Bounds>>, at: Instant)
      modifies this
      ensures log == old(log) + [ReadBounds(handle, r, at)] && old(now) <= at <= now
    {
      r := *;
      at := ReadClock();
      Record(ReadBounds(handle, r, at));
    }

    /** Writing a line to the trace, recorded only if it fails. */
    method Trace() returns (r: Result<()>)
      modifies this
      ensures r.Ok? ==> log == old(log)
      ensures r.Err? ==> log == old(log) + [TraceRefused(r.error)]
      ensures old(now) <= now
    {
      r := *;
      if r.Err? {
        Record(TraceRefused(r.error));
      }
    }

    method LiveElementOf(handle: Handle) returns (r: Result<LiveElement>)
      modifies this
      ensures log == old(log) + [ReadElement(handle, r)] && old(now) <= now
    {
      r := *;
      Record(ReadElement(handle, r));
    }

    method TextSelection(handle: Handle) returns (range: Option<Range>)
      modifies this
      ensures log == old(log) + [ReadSelection(handle, range)] && old(now) <= now
    {
      range := *;
      Record(ReadSelection(handle, range));
    }

    method ExecuteAction(handle: Handle, action: Action, headed: bool) returns (r: Result<ActionResult>)
      modifies this
      ensures log == old(log) + [Executed(handle, action, headed, r)] && old(now) <= now
    {
      r := *;
      Record(Executed(handle, action, headed, r));
    }

    method Sleep(duration: nat)
      modifies this
      ensures log == old(log) + [Slept(old(now), duration)] && old(now) + duration <= now
    {
      log := log + [Slept(now, duration)];
      now := now + duration;
      var _ := ReadClock();
    }
  }
}

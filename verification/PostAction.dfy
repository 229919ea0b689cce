/** Execute once, then verify stateful actions from fresh observations. */
module PostAction {
  import opened Common
  import opened Utf16
  import opened AdapterModel

  const SETTLE_NS: nat := 50 * MS
  const SETTLE_WINDOW_NS: nat := 400 * MS
  const MAX_EXTRA_READS: nat := 7

  // ---------------------------------------------------------------- the postcondition of an action

  function CheckedOf(element: LiveElement): Option<bool> {
    if !element.statesComplete || element.indeterminate then None else Some(element.checkedState)
  }

  predicate ValueMatches(numericMatch: (Text, Text) -> bool, numericRole: bool, expected: Text, value: Text) {
    expected == value || (numericRole && numericMatch(expected, value))
  }

  /** None when the observation cannot decide. */
  function MatchesPostcondition(
    numericMatch: (Text, Text) -> bool, action: Action, before: Option<LiveElement>, expected: Option<Text>,
    observed: LiveElement): Option<bool>
  {
    match action
    case SetValue(text) =>
      if observed.value.Some?
      then Some(ValueMatches(numericMatch, observed.numericRole, text, observed.value.value)) else None
    case Clear => if observed.value.Some? then Some(observed.value.value == []) else None
    case TypeText(_) =>
      if expected.Some? && observed.value.Some? then Some(expected.value == observed.value.value) else None
    case SetChecked => if CheckedOf(observed).Some? then Some(CheckedOf(observed).value) else None
    case SetUnchecked => if CheckedOf(observed).Some? then Some(!CheckedOf(observed).value) else None
    case Toggle =>
      if before.Some? && CheckedOf(before.value).Some? && CheckedOf(observed).Some?
      then Some(CheckedOf(before.value).value != CheckedOf(observed).value) else None
    case Expand => if observed.statesComplete then Some(observed.expanded) else None
    case Collapse => if observed.statesComplete then Some(!observed.expanded) else None
    case _ => None
  }

  /** The actions that are read back are exactly those whose postcondition some observation can decide, and every one
  of them can be both met and missed. */
  lemma ReadBackIffDecidable(numericMatch: (Text, Text) -> bool, action: Action, outcome: bool)
    ensures action.RequiresReadback() <==>
              exists before, expected, observed ::
                MatchesPostcondition(numericMatch, action, before, expected, observed) == Some(outcome)
  {
    if action.RequiresReadback() {
      var before, expected, observed := Deciding(numericMatch, action, outcome);
    }
  }

  lemma Deciding(numericMatch: (Text, Text) -> bool, action: Action, outcome: bool)
    returns (before: Option<LiveElement>, expected: Option<Text>, observed: LiveElement)
    requires action.RequiresReadback()
    ensures MatchesPostcondition(numericMatch, action, before, expected, observed) == Some(outcome)
  {
    var wanted: Text := if action.SetValue? then action.text else [];
    var other: Text := wanted + [65];
    var seen := LiveElement(false, Some(if outcome then wanted else other), false, false, false, false, true);
    before, expected, observed := Some(seen), Some(wanted), seen;
    assert |other| != |wanted|;
    match action
    case SetChecked => observed := seen.(checkedState := outcome);
    case SetUnchecked => observed := seen.(checkedState := !outcome);
    case Toggle => observed := seen.(checkedState := outcome);
    case Expand => observed := seen.(expanded := outcome);
    case Collapse => observed := seen.(expanded := !outcome);
    case _ =>
  }

  // ---------------------------------------------------------------- dispositions

  function Verified(disposition: Disposition): Disposition {
    if disposition.DeliveredUnverified? then DeliveredVerified else disposition
  }

  function Unverified(disposition: Disposition): Disposition {
    if disposition.DeliveredVerified? then DeliveredUnverified else disposition
  }

  /** What a failed verification may still claim. */
  function VerificationDisposition(disposition: Disposition): Disposition {
    if disposition.NotDelivered? then NotDelivered else DeliveredUnverified
  }

  /** The reported disposition, from the adapter's own answer and what was observed after it. */
  function ReportedDisposition(execution: Result<ActionResult>, seen: Result<LiveElement>, matched: Option<bool>)
    : Disposition
  {
    match execution
    case Err(error) => error.disposition
    case Ok(result) =>
      if seen.Err? then VerificationDisposition(result.disposition)
      else if matched.None? then Unverified(result.disposition)
      else if matched.value then Verified(result.disposition)
      else VerificationDisposition(result.disposition)
  }

  /** Succeeding, too, is decided by those three. */
  predicate ReportsSuccess(execution: Result<ActionResult>, seen: Result<LiveElement>, matched: Option<bool>) {
    execution.Ok? && seen.Ok? && matched != Some(false)
  }

  // ---------------------------------------------------------------- what a run did

  predicate IsRead(event: Event, handle: Handle) {
    (event.ReadElement? || event.ReadSelection?) && event.handle == handle
  }

  /** Events `from` to `to` are reads of the handle and settle sleeps, nothing else. */
  ghost predicate OnlyReads(log: seq<Event>, from: nat, to: nat, handle: Handle) {
    forall i :: from <= i < to && i < |log| ==> IsRead(log[i], handle) || log[i].Slept?
  }

  /** The action was executed on the handle once, at position `at`, between reads. */
  ghost predicate ExecutesOnce(log: seq<Event>, from: nat, at: nat, handle: Handle, action: Action, headed: bool) {
    && from <= at < |log| && log[at].Executed?
    && log[at].handle == handle && log[at].action == action && log[at].headed == headed
    && OnlyReads(log, from, at, handle) && OnlyReads(log, at + 1, |log|, handle)
  }

  /** One event of the settling, which starts at `from`: reads and sleeps alternate. A sleep follows only a read that
  contradicts the action, when the adapter reported success, and began with more than its length left in the window
  and in the deadline. */
  ghost predicate SettleStep(log: seq<Event>, from: nat, i: nat, judge: Judge, settleFrom: Instant, deadline: Instant)
    requires from <= i < |log|
  {
    match log[i]
    case ReadElement(_, _) => i == from || log[i - 1].Slept?
    case Slept(start, duration) =>
      && i > from && log[i - 1].ReadElement? && judge.Contradicts(log[i - 1].seen)
      && duration == SETTLE_NS && settleFrom <= start
      && start + SETTLE_NS < deadline && start + SETTLE_NS < settleFrom + SETTLE_WINDOW_NS
    case _ => false
  }

  ghost predicate SettleSteps(log: seq<Event>, from: nat, judge: Judge, settleFrom: Instant, deadline: Instant) {
    forall i: nat :: from <= i < |log| ==> SettleStep(log, from, i, judge, settleFrom, deadline)
  }

  lemma OneMoreStep(
    log: seq<Event>, event: Event, from: nat, judge: Judge, settleFrom: Instant, deadline: Instant)
    requires from <= |log| && SettleSteps(log, from, judge, settleFrom, deadline)
    requires SettleStep(log + [event], from, |log|, judge, settleFrom, deadline)
    ensures SettleSteps(log + [event], from, judge, settleFrom, deadline)
  {
    var longer := log + [event];
    forall i: nat | from <= i < |longer|
      ensures SettleStep(longer, from, i, judge, settleFrom, deadline)
    {
      if i < |log| {
        assert SettleStep(log, from, i, judge, settleFrom, deadline);
      }
    }
  }

  /** Too little is left of the window or of the deadline for another sleep. */
  predicate BudgetSpent(settleFrom: Instant, deadline: Instant, now: Instant) {
    deadline <= now + SETTLE_NS || settleFrom + SETTLE_WINDOW_NS <= now + SETTLE_NS
  }

  function Reads(log: seq<Event>, from: nat): nat
    decreases |log|
  {
    if |log| <= from then 0
    else Reads(log[..|log| - 1], from) + (if log[|log| - 1].ReadElement? then 1 else 0)
  }

  lemma ReadsAppend(log: seq<Event>, event: Event, from: nat)
    requires from <= |log|
    ensures Reads(log + [event], from) == Reads(log, from) + (if event.ReadElement? then 1 else 0)
  {
    assert (log + [event])[..|log|] == log;
  }

  // ---------------------------------------------------------------- the code

  datatype Expectation = Expectation(before: Option<LiveElement>, text: Option<Text>)

  /** All that an observation is judged by. */
  datatype Judge = Judge(
    numericMatch: (Text, Text) -> bool, action: Action, expectation: Expectation, succeeded: bool)
  {
    function Matched(seen: Result<LiveElement>): Option<bool> {
      MatchedOf(numericMatch, action, expectation, seen)
    }

    predicate Contradicts(seen: Result<LiveElement>) {
      succeeded && Matched(seen) == Some(false)
    }
  }

  /** The reads made before execution, exactly: the element for typing and toggling, and the selection
  when the text is known and execution will not move it. */
  ghost predicate PreReads(log: seq<Event>, from: nat, at: nat, handle: Handle, action: Action, headed: bool)
    requires from <= at <= |log|
  {
    if !action.TypeText? && !action.Toggle? then at == from
    else
      && from < at && log[from].ReadElement? && log[from].handle == handle
      && var seen := log[from].seen;
         if action.TypeText? && seen.Ok? && seen.value.value.Some? && (!headed || seen.value.focused)
         then at == from + 2 && log[from + 1].ReadSelection? && log[from + 1].handle == handle
         else at == from + 1
  }

  ghost function BeforeOf(log: seq<Event>, from: nat, at: nat): Option<LiveElement>
    requires from <= at <= |log|
  {
    if from < at && log[from].ReadElement? && log[from].seen.Ok? then Some(log[from].seen.value) else None
  }

  ghost function SelectionOf(log: seq<Event>, from: nat, at: nat): Option<Range>
    requires from <= at <= |log|
  {
    if from + 1 < at && log[from + 1].ReadSelection? then log[from + 1].range else None
  }

  /** What those reads lead the verifier to expect. */
  ghost function ExpectationOf(log: seq<Event>, from: nat, at: nat, action: Action): Expectation
    requires from <= at <= |log|
  {
    var before := BeforeOf(log, from, at);
    Expectation(before,
                if action.TypeText? && before.Some? && before.value.value.Some?
                then ExpectedText(before.value.value.value, action.text, SelectionOf(log, from, at)) else None)
  }

  /** The observations taken before execution, and the text typing should leave. */
  method Expect(adapter: Adapter, handle: Handle, action: Action, headed: bool) returns (e: Expectation)
    modifies adapter
    ensures old(adapter.log) <= adapter.log && old(adapter.now) <= adapter.now
    ensures PreReads(adapter.log, |old(adapter.log)|, |adapter.log|, handle, action, headed)
    ensures e == ExpectationOf(adapter.log, |old(adapter.log)|, |adapter.log|, action)
  {
    e := Expectation(None, None);
    if !action.TypeText? && !action.Toggle? {
      return;
    }
    var seen := adapter.LiveElementOf(handle);
    if seen.Err? {
      return;
    }
    e := Expectation(Some(seen.value), None);
    if !action.TypeText? || seen.value.value.None? {
      return;
    }
    var selection: Option<Range> := None;
    if !headed || seen.value.focused {
      selection := adapter.TextSelection(handle);
    }
    var text := ExpectedInsertion(seen.value.value.value, action.text, selection);
    e := Expectation(Some(seen.value), text);
  }

  /** Reads until the postcondition no longer reads false or the settle budget is spent, never giving up
  on a mismatch earlier: one read and at most seven more. */
  method Settle(adapter: Adapter, handle: Handle, judge: Judge, deadline: Instant)
    returns (seen: Result<LiveElement>, ghost settleFrom: Instant)
    requires judge.numericMatch == adapter.numericMatch
    modifies adapter
    ensures old(adapter.log) <= adapter.log && |adapter.log| > |old(adapter.log)|
    ensures old(adapter.now) <= settleFrom <= adapter.now
    ensures adapter.log[|adapter.log| - 1] == ReadElement(handle, seen)
    ensures OnlyReads(adapter.log, |old(adapter.log)|, |adapter.log|, handle)
    ensures SettleSteps(adapter.log, |old(adapter.log)|, judge, settleFrom, deadline)
    ensures 1 <= Reads(adapter.log, |old(adapter.log)|) <= 1 + MAX_EXTRA_READS
    ensures judge.Contradicts(seen) ==> BudgetSpent(settleFrom, deadline, adapter.now)
  {
    ghost var from := |adapter.log|;
    ghost var start := adapter.log;
    seen := adapter.LiveElementOf(handle);
    ReadsAppend(start, ReadElement(handle, seen), from);
    var time := adapter.ReadClock();
    settleFrom := time;
    var settleDeadline := if deadline < time + SETTLE_WINDOW_NS then deadline else time + SETTLE_WINDOW_NS;
    OneMoreStep(start, ReadElement(handle, seen), from, judge, settleFrom, deadline);
    ghost var extra: nat := 0;
    while true
      invariant start <= adapter.log && |adapter.log| > from
      invariant adapter.log[|adapter.log| - 1] == ReadElement(handle, seen)
      invariant OnlyReads(adapter.log, from, |adapter.log|, handle)
      invariant SettleSteps(adapter.log, from, judge, settleFrom, deadline)
      invariant Reads(adapter.log, from) == 1 + extra
      invariant settleFrom + extra * SETTLE_NS <= adapter.now
      invariant extra <= MAX_EXTRA_READS
      decreases MAX_EXTRA_READS - extra
    {
      if !judge.Contradicts(seen) {
        return;
      }
      time := adapter.ReadClock();
      if settleDeadline <= time + SETTLE_NS {
        return;
      }
      seen := SleepAndRead(adapter, handle, judge, from, settleFrom, deadline);
      extra := extra + 1;
    }
  }

  method SleepAndRead(
    adapter: Adapter, handle: Handle, ghost judge: Judge, ghost from: nat, ghost settleFrom: Instant,
    ghost deadline: Instant)
    returns (seen: Result<LiveElement>)
    requires from < |adapter.log| && settleFrom <= adapter.now
    requires OnlyReads(adapter.log, from, |adapter.log|, handle)
    requires SettleSteps(adapter.log, from, judge, settleFrom, deadline)
    requires adapter.log[|adapter.log| - 1].ReadElement? && judge.Contradicts(adapter.log[|adapter.log| - 1].seen)
    requires adapter.now + SETTLE_NS < deadline && adapter.now + SETTLE_NS < settleFrom + SETTLE_WINDOW_NS
    modifies adapter
    ensures old(adapter.log) <= adapter.log && |adapter.log| == |old(adapter.log)| + 2
    ensures adapter.log[|adapter.log| - 1] == ReadElement(handle, seen)
    ensures OnlyReads(adapter.log, from, |adapter.log|, handle)
    ensures SettleSteps(adapter.log, from, judge, settleFrom, deadline)
    ensures Reads(adapter.log, from) == Reads(old(adapter.log), from) + 1
    ensures old(adapter.now) + SETTLE_NS <= adapter.now
  {
    ghost var log := adapter.log;
    adapter.Sleep(SETTLE_NS);
    ReadsAppend(log, Slept(old(adapter.now), SETTLE_NS), from);
    OneMoreStep(log, Slept(old(adapter.now), SETTLE_NS), from, judge, settleFrom, deadline);
    ghost var slept := adapter.log;
    seen := adapter.LiveElementOf(handle);
    ReadsAppend(slept, ReadElement(handle, seen), from);
    OneMoreStep(slept, ReadElement(handle, seen), from, judge, settleFrom, deadline);
  }

  /** The result and error values assembled from the adapter's answer and the last observation. */
  function Assemble(
    execution: Result<ActionResult>, seen: Result<LiveElement>, matched: Option<bool>, writesValue: bool)
    : (r: Result<ActionResult>)
    requires matched.Some? ==> seen.Ok?
    ensures r.Ok? <==> ReportsSuccess(execution, seen, matched)
    ensures DispositionOf(r) == ReportedDisposition(execution, seen, matched)
    ensures r.Ok? ==> r.value.state == Some(seen.value)
  {
    match execution
    case Err(error) => Err(error)
    case Ok(result) =>
      if seen.Err? then Err(seen.error.(disposition := VerificationDisposition(result.disposition)))
      else if matched.None? then
        Ok(RawResult(Unverified(result.disposition), Some(seen.value), Some(Unavailable)))
      else if matched.value then
        var scope := if writesValue then ElementValue else ElementState;
        Ok(RawResult(Verified(result.disposition), Some(seen.value), Some(scope)))
      else
        Err(Error(ActionFailed, VerificationDisposition(result.disposition), Unspecified, None, false, false))
  }

  function MatchedOf(
    numericMatch: (Text, Text) -> bool, action: Action, e: Expectation, seen: Result<LiveElement>): Option<bool>
  {
    if seen.Ok? then MatchesPostcondition(numericMatch, action, e.before, e.text, seen.value) else None
  }

  /** The settling since `from` took its turns, and a last read that contradicts means that its budget is spent. */
  ghost predicate Settles(log: seq<Event>, from: nat, judge: Judge, deadline: Instant, now: Instant)
    requires from < |log| && log[|log| - 1].ReadElement?
  {
    && 1 <= Reads(log, from) <= 1 + MAX_EXTRA_READS
    && exists settleFrom: nat ::
         && SettleSteps(log, from, judge, settleFrom, deadline)
         && (judge.Contradicts(log[|log| - 1].seen) ==> BudgetSpent(settleFrom, deadline, now))
  }

  /** What the run is judged by: the reads before the execution, and whether the adapter reported success. */
  ghost function JudgeOf(log: seq<Event>, numericMatch: (Text, Text) -> bool, from: nat, at: nat, action: Action): Judge
    requires from <= at < |log| && log[at].Executed?
  {
    Judge(numericMatch, action, ExpectationOf(log, from, at, action), log[at].result.Ok?)
  }

  /** `r` is what the adapter's answer at `at`, the expectation and the last observation call for. */
  ghost predicate StatefulRun(
    log: seq<Event>, numericMatch: (Text, Text) -> bool, from: nat, at: nat, handle: Handle, action: Action,
    deadline: Instant, now: Instant, r: Result<ActionResult>)
    requires from <= at < |log| && log[at].Executed?
  {
    var execution := log[at].result;
    if execution.Err? && DispositionOf(execution).NotDelivered? then
      r == execution && |log| == at + 1
    else
      && |log| > at + 1 && log[|log| - 1].ReadElement?
      && var judge, seen := JudgeOf(log, numericMatch, from, at, action), log[|log| - 1].seen;
         && Settles(log, at + 1, judge, deadline, now)
         && r == Assemble(execution, seen, judge.Matched(seen), action.WritesValue())
  }

  /** A recorded run stays one as time passes. */
  lemma StillRuns(
    log: seq<Event>, numericMatch: (Text, Text) -> bool, from: nat, at: nat, handle: Handle, action: Action,
    deadline: Instant, now: Instant, later: Instant, r: Result<ActionResult>)
    requires from <= at < |log| && log[at].Executed? && now <= later
    requires StatefulRun(log, numericMatch, from, at, handle, action, deadline, now, r)
    ensures StatefulRun(log, numericMatch, from, at, handle, action, deadline, later, r)
  {
    if !(log[at].result.Err? && DispositionOf(log[at].result).NotDelivered?) {
      SettledLater(log, at + 1, JudgeOf(log, numericMatch, from, at, action), deadline, now, later);
    }
  }

  lemma SettledLater(log: seq<Event>, from: nat, judge: Judge, deadline: Instant, now: Instant, later: Instant)
    requires from < |log| && log[|log| - 1].ReadElement? && now <= later
    requires Settles(log, from, judge, deadline, now)
    ensures Settles(log, from, judge, deadline, later)
  {
    var settleFrom: nat :| && SettleSteps(log, from, judge, settleFrom, deadline)
                           && (judge.Contradicts(log[|log| - 1].seen) ==> BudgetSpent(settleFrom, deadline, now));
    assert SettleSteps(log, from, judge, settleFrom, deadline);
  }

  /** For every adapter: the action is executed exactly once; an action without readback returns the
  adapter's answer; a stateful one reports what `StatefulRun` derives from that answer and the last
  observation taken after it. */
  method ExecuteVerifiedAction(adapter: Adapter, handle: Handle, action: Action, headed: bool, deadline: Instant)
    returns (r: Result<ActionResult>, ghost at: nat)
    modifies adapter
    ensures old(adapter.log) <= adapter.log && old(adapter.now) <= adapter.now
    ensures ExecutesOnce(adapter.log, |old(adapter.log)|, at, handle, action, headed)
    ensures !action.RequiresReadback() ==> r == adapter.log[at].result && |adapter.log| == |old(adapter.log)| + 1
    ensures action.RequiresReadback() ==>
              && PreReads(adapter.log, |old(adapter.log)|, at, handle, action, headed)
              && StatefulRun(adapter.log, adapter.numericMatch, |old(adapter.log)|, at, handle, action, deadline,
                             adapter.now, r)
  {
    ghost var from := |adapter.log|;
    if !action.RequiresReadback() {
      at := |adapter.log|;
      r := adapter.ExecuteAction(handle, action, headed);
      return;
    }
    var e := Expect(adapter, handle, action, headed);
    at := |adapter.log|;
    ghost var before := adapter.log;
    var execution := adapter.ExecuteAction(handle, action, headed);
    SameReads(before, adapter.log, from, at, handle, action, headed);
    if execution.Err? && execution.error.disposition.NotDelivered? {
      return execution, at;
    }
    ghost var executed := adapter.log;
    r := VerifyAfter(adapter, handle, action, execution, e, deadline, from, at);
    SameReads(executed, adapter.log, from, at, handle, action, headed);
  }

  /** The part after an execution that may have been delivered. */
  method VerifyAfter(
    adapter: Adapter, handle: Handle, action: Action, execution: Result<ActionResult>, e: Expectation,
    deadline: Instant, ghost from: nat, ghost at: nat)
    returns (r: Result<ActionResult>)
    requires from <= at < |adapter.log| && |adapter.log| == at + 1
    requires adapter.log[at].Executed? && adapter.log[at].handle == handle && adapter.log[at].result == execution
    requires !(execution.Err? && DispositionOf(execution).NotDelivered?)
    requires e == ExpectationOf(adapter.log, from, at, action)
    modifies adapter
    ensures old(adapter.log) <= adapter.log && old(adapter.now) <= adapter.now
    ensures OnlyReads(adapter.log, at + 1, |adapter.log|, handle)
    ensures StatefulRun(adapter.log, adapter.numericMatch, from, at, handle, action, deadline, adapter.now, r)
  {
    var judge := Judge(adapter.numericMatch, action, e, execution.Ok?);
    var seen, settleFrom := Settle(adapter, handle, judge, deadline);
    r := Assemble(execution, seen, judge.Matched(seen), action.WritesValue());
    assert SettleSteps(adapter.log, at + 1, judge, settleFrom, deadline);
  }

  lemma SameReads(log: seq<Event>, longer: seq<Event>, from: nat, at: nat, handle: Handle, action: Action, headed: bool)
    requires from <= at <= |log| && log <= longer
    ensures ExpectationOf(longer, from, at, action) == ExpectationOf(log, from, at, action)
    ensures PreReads(longer, from, at, handle, action, headed) <==> PreReads(log, from, at, handle, action, headed)
  {
  }

  // ---------------------------------------------------------------- what that means for the caller

  /** The report says not delivered exactly when the adapter itself did; a verified success needs a
  matching observation after the execution; and a mismatch is never a success. */
  lemma ReportIsHonest(execution: Result<ActionResult>, seen: Result<LiveElement>, matched: Option<bool>)
    requires matched.Some? ==> seen.Ok?
    ensures ReportedDisposition(execution, seen, matched) == NotDelivered <==> DispositionOf(execution) == NotDelivered
    ensures execution.Ok? && ReportedDisposition(execution, seen, matched) == DeliveredVerified ==>
              matched == Some(true)
    ensures matched == Some(false) ==> !ReportsSuccess(execution, seen, matched)
    ensures execution.Ok? && matched == Some(true) && !DispositionOf(execution).NotDelivered? ==>
              && ReportsSuccess(execution, seen, matched)
              && ReportedDisposition(execution, seen, matched) == DeliveredVerified
  {
  }

  /** The same, for every recorded run of a stateful action. */
  lemma StatefulRunIsHonest(
    log: seq<Event>, numericMatch: (Text, Text) -> bool, from: nat, at: nat, handle: Handle, action: Action,
    deadline: Instant, now: Instant, r: Result<ActionResult>)
    requires from <= at < |log| && log[at].Executed?
    requires StatefulRun(log, numericMatch, from, at, handle, action, deadline, now, r)
    ensures DispositionOf(r) == NotDelivered <==> DispositionOf(log[at].result) == NotDelivered
    ensures r.Ok? && DispositionOf(r) == DeliveredVerified ==>
              exists i, seen :: at < i < |log| && log[i] == ReadElement(log[|log| - 1].handle, Ok(seen))
                && var e := ExpectationOf(log, from, at, action);
                   MatchesPostcondition(numericMatch, action, e.before, e.text, seen) == Some(true)
  {
    var execution := log[at].result;
    if !(execution.Err? && DispositionOf(execution).NotDelivered?) {
      var last := |log| - 1;
      var seen := log[last].seen;
      ReportIsHonest(execution, seen, MatchedOf(numericMatch, action, ExpectationOf(log, from, at, action), seen));
      if r.Ok? && DispositionOf(r) == DeliveredVerified {
        assert log[last] == ReadElement(log[last].handle, Ok(seen.value));
      }
    }
  }

  // ---------------------------------------------------------------- what counts as evidence, action by action

  /** A recorded run whose execution the adapter reported delivered and whose last read was answered. */
  ghost predicate DeliveredAndSeen(
    log: seq<Event>, numericMatch: (Text, Text) -> bool, from: nat, at: nat, handle: Handle, action: Action,
    deadline: Instant, now: Instant, r: Result<ActionResult>)
  {
    && from <= at < |log| && log[at].Executed? && log[at].result.Ok? && !log[at].result.value.disposition.NotDelivered?
    && StatefulRun(log, numericMatch, from, at, handle, action, deadline, now, r)
    && log[|log| - 1].ReadElement? && log[|log| - 1].seen.Ok?
    && PreReads(log, from, at, handle, action, log[at].headed)
  }

  ghost function LastSeen(log: seq<Event>): LiveElement
    requires |log| > 0 && log[|log| - 1].ReadElement? && log[|log| - 1].seen.Ok?
  {
    log[|log| - 1].seen.value
  }

  /** A success with the observed state attached. */
  ghost predicate Confirmed(r: Result<ActionResult>, seen: LiveElement) {
    r.Ok? && r.value.disposition == DeliveredVerified && r.value.state == Some(seen)
    && (r.value.scope == Some(ElementState) || r.value.scope == Some(ElementValue))
  }

  /** An error that claims no more than delivery. */
  ghost predicate Contradicted(r: Result<ActionResult>) {
    r.Err? && r.error.code == ActionFailed && r.error.disposition == DeliveredUnverified
  }

  /** A success that says it could not be verified. */
  ghost predicate Unconfirmed(r: Result<ActionResult>, seen: LiveElement) {
    && r.Ok? && r.value.disposition == DeliveredUnverified && r.value.state == Some(seen)
    && r.value.scope == Some(Unavailable)
  }

  /** Expanding is confirmed by an expanded node and contradicted by a collapsed one, collapsing the other way round;
  an incomplete state decides neither. */
  lemma ExpansionIsObserved(
    log: seq<Event>, numericMatch: (Text, Text) -> bool, from: nat, at: nat, handle: Handle, action: Action,
    deadline: Instant, now: Instant, r: Result<ActionResult>)
    requires DeliveredAndSeen(log, numericMatch, from, at, handle, action, deadline, now, r)
    ensures var seen := LastSeen(log);
            && (action.Expand? ==> && (Confirmed(r, seen) <==> seen.statesComplete && seen.expanded)
                                   && (Contradicted(r) <==> seen.statesComplete && !seen.expanded))
            && (action.Collapse? ==> && (Confirmed(r, seen) <==> seen.statesComplete && !seen.expanded)
                                     && (Contradicted(r) <==> seen.statesComplete && seen.expanded))
            && (action.Expand? || action.Collapse? ==> (Unconfirmed(r, seen) <==> !seen.statesComplete))
  {
  }

  /** The same for checking and unchecking; an indeterminate box decides neither. */
  lemma CheckIsObserved(
    log: seq<Event>, numericMatch: (Text, Text) -> bool, from: nat, at: nat, handle: Handle, action: Action,
    deadline: Instant, now: Instant, r: Result<ActionResult>)
    requires DeliveredAndSeen(log, numericMatch, from, at, handle, action, deadline, now, r)
    requires action.SetChecked? || action.SetUnchecked?
    ensures var seen := LastSeen(log); var decided := seen.statesComplete && !seen.indeterminate;
            && (Confirmed(r, seen) <==>
                  decided && (if action.SetChecked? then seen.checkedState else !seen.checkedState))
            && (Contradicted(r) <==>
                  decided && (if action.SetChecked? then !seen.checkedState else seen.checkedState))
            && (Unconfirmed(r, seen) <==> !decided)
  {
  }

  /** Toggling is confirmed by a change between the read before the execution and the last one after it. */
  lemma ToggleIsObserved(
    log: seq<Event>, numericMatch: (Text, Text) -> bool, from: nat, at: nat, handle: Handle, action: Action,
    deadline: Instant, now: Instant, r: Result<ActionResult>)
    requires DeliveredAndSeen(log, numericMatch, from, at, handle, action, deadline, now, r) && action.Toggle?
    ensures at == from + 1 && log[from].ReadElement? && log[from].handle == handle
    ensures var before, seen := log[from].seen, LastSeen(log);
            var decided := && before.Ok? && before.value.statesComplete && !before.value.indeterminate
                           && seen.statesComplete && !seen.indeterminate;
            && (Confirmed(r, seen) <==> decided && before.value.checkedState != seen.checkedState)
            && (Contradicted(r) <==> decided && before.value.checkedState == seen.checkedState)
            && (Unconfirmed(r, seen) <==> !decided)
  {
  }

  /** Writing a value is confirmed by reading it back, for a numeric role up to the numeric comparison; clearing, by
  reading an empty one; a value that cannot be read decides neither. */
  lemma ValueIsObserved(
    log: seq<Event>, numericMatch: (Text, Text) -> bool, from: nat, at: nat, handle: Handle, action: Action,
    deadline: Instant, now: Instant, r: Result<ActionResult>)
    requires DeliveredAndSeen(log, numericMatch, from, at, handle, action, deadline, now, r)
    requires action.SetValue? || action.Clear?
    ensures var seen := LastSeen(log);
            && (Confirmed(r, seen) <==>
                  seen.value.Some? && if action.Clear? then |seen.value.value| == 0
                                      else seen.value.value == action.text
                                           || (seen.numericRole && numericMatch(action.text, seen.value.value)))
            && (Unconfirmed(r, seen) <==> seen.value.None?)
            && (Contradicted(r) <==> !Confirmed(r, seen) && !Unconfirmed(r, seen))
  {
  }

  /** What typing replaces: the text read before it from position `i` to position `j`. */
  ghost predicate TypingReplaces(log: seq<Event>, from: nat, at: nat, before: Text, i: nat, j: nat)
    requires from <= at <= |log|
  {
    && i <= |before| && j <= |before| && from < at && log[from].ReadElement?
    && log[from].seen.Ok? && log[from].seen.value.value == Some(before)
    && InsertionRange(before, SelectionOf(log, from, at))
       == Some(Range(|Encode(before[..i])|, |Encode(before[..j])|))
    && |Encode(before[..i])| <= |Encode(before[..j])|
  }

  /** Typing is confirmed by reading what was there before with the selection replaced, and contradicted by reading
  anything else. Without a readable value before and after, or without a range on scalar boundaries, neither. */
  lemma TypingIsObserved(
    log: seq<Event>, numericMatch: (Text, Text) -> bool, from: nat, at: nat, handle: Handle, action: Action,
    deadline: Instant, now: Instant, r: Result<ActionResult>)
    requires DeliveredAndSeen(log, numericMatch, from, at, handle, action, deadline, now, r) && action.TypeText?
    ensures var seen := LastSeen(log);
            && (forall before: Text, i: nat, j: nat ::
                  TypingReplaces(log, from, at, before, i, j) && seen.value.Some? ==>
                    if seen.value.value == before[..i] + action.text + before[j..] then Confirmed(r, seen)
                    else Contradicted(r))
            && (Unconfirmed(r, seen) <==>
                  seen.value.None?
                  || forall before: Text, i: nat, j: nat :: !TypingReplaces(log, from, at, before, i, j))
  {
    var seen := LastSeen(log);
    forall before: Text, i: nat, j: nat | TypingReplaces(log, from, at, before, i, j)
      ensures ExpectationOf(log, from, at, action).text == Some(before[..i] + action.text + before[j..])
    {
      SpliceDecodes(before, action.text, i, j);
    }
    var expected := ExpectationOf(log, from, at, action).text;
    if expected.Some? {
      var before := log[from].seen.value.value.value;
      var range := InsertionRange(before, SelectionOf(log, from, at)).value;
      var i: nat :| i <= |before| && range.start == |Encode(before[..i])|;
      var j: nat :| j <= |before| && range.end == |Encode(before[..j])|;
      assert TypingReplaces(log, from, at, before, i, j);
    }
  }
}

/** Acting on a resolved reference: poll until it looks actionable, take the lease, resolve again, check,
scroll at most once, execute at most once. */
module RefAction {
  import opened Common
  import opened Utf16
  import opened AdapterModel
  import PostAction

  const SAMPLE_INTERVAL_NS: nat := 17 * MS
  const STABLE_SPAN_NS: nat := 34 * MS
  const POLL_INTERVAL_NS: nat := 100 * MS
  const STABILITY_POLL_NS: nat := 16 * MS

  /** `needsStability` and `needsFocus` are the action's requirement tables, evaluated; the deadline is that of the
  whole operation. */
  datatype Request = Request(
    action: Action, headed: bool, needsStability: bool, needsFocus: bool, waits: bool, deadline: Instant)

  // ---------------------------------------------------------------- evidence and dispositions

  predicate FailedCheck(error: Error, name: CheckName) {
    error.checks.Some? && Check(name, Fail) in error.checks.value
  }

  predicate OnlyStabilityPending(error: Error) {
    && error.checks.Some?
    && (exists c :: c in error.checks.value && c.name.Stability? && !c.status.Pass?)
    && (forall c :: c in error.checks.value ==> c.name.Stability? || c.status.Pass?)
  }

  /** Only stability is pending: some check has not passed, and none but the stability check has not. */
  lemma PendingMeans(error: Error)
    ensures OnlyStabilityPending(error) <==>
              && error.checks.Some?
              && (exists i :: 0 <= i < |error.checks.value| && error.checks.value[i].status != Pass)
              && (forall i :: 0 <= i < |error.checks.value| && error.checks.value[i].status != Pass ==>
                    error.checks.value[i].name == Stability)
  {
    if error.checks.Some? {
      var checks := error.checks.value;
      if i :| 0 <= i < |checks| && checks[i].status != Pass {
        assert checks[i] in checks;
      }
      if OnlyStabilityPending(error) {
        var c :| c in checks && c.name.Stability? && !c.status.Pass?;
        var i :| 0 <= i < |checks| && checks[i] == c;
      }
    }
  }

  predicate ShouldScroll(request: Request, error: Error) {
    request.action.RequiresScrollIntoView() && FailedCheck(error, Visible)
  }

  function AfterScroll(error: Error): Error {
    error.(scrolled := true,
           disposition := if error.disposition.NotDelivered? || error.disposition.Unknown? then Uncertain
           else error.disposition)
  }

  function MarkPreDispatch(error: Error): Error {
    if error.disposition.Unknown? then error.(disposition := NotDelivered) else error
  }

  // ---------------------------------------------------------------- geometric stability

  function Distance(a: real, b: real): real {
    if a < b then b - a else a - b
  }

  predicate GeometryMatches(a: Bounds, b: Bounds) {
    && Distance(a.x, b.x) <= 0.5 && Distance(a.y, b.y) <= 0.5
    && Distance(a.width, b.width) <= 0.5 && Distance(a.height, b.height) <= 0.5
  }

  /** Two readings match if no edge moved or grew by more than half a point, whichever came first. */
  lemma GeometryMeans(a: Bounds, b: Bounds)
    ensures GeometryMatches(a, b) <==>
              && -0.5 <= a.x - b.x <= 0.5 && -0.5 <= a.y - b.y <= 0.5
              && -0.5 <= a.width - b.width <= 0.5 && -0.5 <= a.height - b.height <= 0.5
    ensures GeometryMatches(a, b) <==> GeometryMatches(b, a)
  {
  }

  datatype Sample = Sample(bounds: Option<Bounds>, elapsed: nat)

  /** Sample `i` has bounds that match those of the sample before it. */
  predicate Continues(samples: seq<Sample>, i: nat) {
    && 0 < i < |samples| && samples[i].bounds.Some? && samples[i - 1].bounds.Some?
    && GeometryMatches(samples[i - 1].bounds.value, samples[i].bounds.value)
  }

  /** The last `k` samples are the longest run of successively matching bounds. */
  ghost predicate IsLastRun(samples: seq<Sample>, k: nat) {
    && k <= |samples|
    && (k > 0 ==> samples[|samples| - k].bounds.Some?)
    && (forall i :: |samples| - k < i < |samples| ==> Continues(samples, i))
    && !(0 < k < |samples| && Continues(samples, |samples| - k))
    && (k == 0 && samples != [] ==> samples[|samples| - 1].bounds.None?)
  }

  /** At least three successively matching samples that span at least the minimum time. */
  ghost predicate HasSettled(samples: seq<Sample>) {
    exists k :: IsLastRun(samples, k) && k >= 3
                && samples[|samples| - 1].elapsed >= samples[|samples| - k].elapsed + STABLE_SPAN_NS
  }

  lemma LastRunUnique(samples: seq<Sample>, k: nat, l: nat)
    requires IsLastRun(samples, k) && IsLastRun(samples, l)
    ensures k == l
  {
    if k < l {
      LongerRunContinues(samples, k, l);
    } else if l < k {
      LongerRunContinues(samples, l, k);
    }
  }

  lemma LongerRunContinues(samples: seq<Sample>, k: nat, l: nat)
    requires k < l && IsLastRun(samples, l)
    ensures !IsLastRun(samples, k)
  {
    if k > 0 {
      assert Continues(samples, |samples| - k);
    } else if l > 1 {
      assert Continues(samples, |samples| - 1);
    }
  }

  /** The same bounds at times that differ by a constant. */
  ghost predicate Shifted(a: seq<Sample>, b: seq<Sample>, shift: nat) {
    |a| == |b| && forall i :: 0 <= i < |a| ==> b[i] == Sample(a[i].bounds, a[i].elapsed + shift)
  }

  /** Only time differences matter. */
  lemma ShiftedSettles(a: seq<Sample>, b: seq<Sample>, shift: nat)
    requires Shifted(a, b, shift)
    ensures HasSettled(a) <==> HasSettled(b)
  {
    assert forall i :: Continues(a, i) <==> Continues(b, i);
    assert forall k: nat :: IsLastRun(a, k) <==> IsLastRun(b, k);
  }

  class StabilitySampler {
    var previous: Option<Bounds>
    var consecutive: nat
    var stableSince: nat
    ghost var samples: seq<Sample>

    ghost predicate Valid()
      reads this
    {
      && IsLastRun(samples, consecutive)
      && previous == (if samples == [] then None else samples[|samples| - 1].bounds)
      && (consecutive > 0 ==> stableSince == samples[|samples| - consecutive].elapsed)
    }

    constructor ()
      ensures Valid() && samples == []
    {
      previous, consecutive, stableSince, samples := None, 0, 0, [];
    }

    method Observe(bounds: Option<Bounds>, elapsed: nat) returns (stable: bool)
      requires Valid()
      modifies this
      ensures Valid() && samples == old(samples) + [Sample(bounds, elapsed)]
      ensures stable <==> HasSettled(samples)
    {
      ghost var before := samples;
      samples := samples + [Sample(bounds, elapsed)];
      assert forall i :: 0 < i < |before| ==> Continues(samples, i) == Continues(before, i);
      if bounds.None? {
        previous, consecutive, stableSince := None, 0, elapsed;
        stable := false;
      } else {
        if previous.Some? && GeometryMatches(previous.value, bounds.value) {
          consecutive := consecutive + 1;
        } else {
          consecutive, stableSince := 1, elapsed;
        }
        previous := bounds;
        stable := consecutive >= 3 && elapsed >= stableSince && elapsed - stableSince >= STABLE_SPAN_NS;
      }
      assert IsLastRun(samples, consecutive);
      if HasSettled(samples) {
        var k :| IsLastRun(samples, k) && k >= 3
                 && samples[|samples| - 1].elapsed >= samples[|samples| - k].elapsed + STABLE_SPAN_NS;
        LastRunUnique(samples, k, consecutive);
      }
    }
  }

  // ---------------------------------------------------------------- the preflight

  /** A passed check that allows execution: strict, or for an action or delivery that needs no stability. */
  predicate Accepts(event: Event, handle: Handle, request: Request) {
    && event.Checked? && event.handle == handle && event.verdict.Ok?
    && (event.strict || !request.needsStability || event.verdict.value.Semantic?)
  }

  /** Whether the permissive check leaves stability to be established. */
  predicate NeedsSampling(verdict: Result<Delivery>, request: Request) {
    match verdict
    case Ok(delivery) => request.needsStability && !delivery.Semantic?
    case Err(error) => OnlyStabilityPending(error)
  }

  function SamplingTimeout(): Error {
    Error(TimedOut, NotDelivered, Unspecified, None, false, false)
  }

  /** The failure a preflight ends with: that of its last call, or the deadline if that call succeeded. */
  function FailureOf(event: Event): Error {
    match event
    case Checked(_, _, Err(error)) => error
    case ReadBounds(_, Err(error), _) => error
    case _ => SamplingTimeout()
  }

  /** The bounds that were read, with the times of the reads. */
  function SamplesOf(events: seq<Event>): seq<Sample> {
    if events == [] then []
    else
      var last := events[|events| - 1];
      SamplesOf(events[..|events| - 1]) +
      (if last.ReadBounds? && last.found.Ok? then [Sample(last.found.value, last.at)] else [])
  }

  lemma SamplesOfMore(log: seq<Event>, event: Event, from: nat)
    requires from <= |log|
    ensures SamplesOf((log + [event])[from..]) ==
            SamplesOf(log[from..]) +
            (if event.ReadBounds? && event.found.Ok? then [Sample(event.found.value, event.at)] else [])
  {
    assert (log + [event])[from..] == log[from..] + [event];
    assert (log[from..] + [event])[..|log| - from] == log[from..];
  }

  /** One event of a sampling that starts at `from`: reads of the bounds and pauses alternate. A pause follows only
  bounds that have not settled yet, and lasts one sampling interval, or until the deadline. */
  ghost predicate SampleStep(log: seq<Event>, from: nat, i: nat, handle: Handle, deadline: Instant)
    requires from <= i < |log|
  {
    match log[i]
    case ReadBounds(h, _, _) => h == handle && (i == from || log[i - 1].Slept?)
    case Slept(start, duration) =>
      && i > from && log[i - 1].ReadBounds? && log[i - 1].found.Ok? && !HasSettled(SamplesOf(log[from..i]))
      && duration <= SAMPLE_INTERVAL_NS
      && (duration == SAMPLE_INTERVAL_NS || deadline <= start + duration)
    case _ => false
  }

  ghost predicate Sampling(log: seq<Event>, from: nat, to: nat, handle: Handle, deadline: Instant) {
    && from <= to <= |log|
    && forall i: nat :: from <= i < to ==> SampleStep(log, from, i, handle, deadline)
  }

  /** The last event of a sampling: the strict check, right after bounds that have settled; or a failed read, or, at
  the deadline, bounds that have not. */
  ghost predicate SamplingEnd(log: seq<Event>, from: nat, last: nat, handle: Handle, deadline: Instant)
    requires from <= last < |log|
  {
    match log[last]
    case Checked(h, strict, _) =>
      && h == handle && strict && last > from && log[last - 1].ReadBounds? && log[last - 1].found.Ok?
      && HasSettled(SamplesOf(log[from..last]))
    case ReadBounds(_, found, _) =>
      && SampleStep(log, from, last, handle, deadline)
      && (found.Ok? ==> !HasSettled(SamplesOf(log[from..last + 1])))
    case _ => false
  }

  /** One preflight: a permissive check that decides, or is followed by samples and perhaps a strict check. */
  ghost predicate PreflightPart(log: seq<Event>, from: nat, to: nat, handle: Handle, request: Request, passed: bool) {
    && from < to <= |log| && log[from].Checked? && log[from].handle == handle && !log[from].strict
    && (to == from + 1 <==> !NeedsSampling(log[from].verdict, request))
    && (to > from + 1 ==> && Sampling(log, from + 1, to - 1, handle, request.deadline)
                          && SamplingEnd(log, from + 1, to - 1, handle, request.deadline))
    && (passed <==> log[to - 1].Checked? && log[to - 1].verdict.Ok?)
  }

  lemma StepStays(log: seq<Event>, longer: seq<Event>, from: nat, i: nat, handle: Handle, deadline: Instant)
    requires log <= longer && from <= i < |log|
    ensures SampleStep(longer, from, i, handle, deadline) <==> SampleStep(log, from, i, handle, deadline)
    ensures SamplingEnd(longer, from, i, handle, deadline) <==> SamplingEnd(log, from, i, handle, deadline)
  {
    assert log[from..i] == longer[from..i] && log[from..i + 1] == longer[from..i + 1];
  }

  lemma SamplingStays(log: seq<Event>, longer: seq<Event>, from: nat, to: nat, handle: Handle, deadline: Instant)
    requires log <= longer && Sampling(log, from, to, handle, deadline)
    ensures Sampling(longer, from, to, handle, deadline)
  {
    forall i: nat | from <= i < to
      ensures SampleStep(longer, from, i, handle, deadline)
    {
      assert SampleStep(log, from, i, handle, deadline);
      StepStays(log, longer, from, i, handle, deadline);
    }
  }

  lemma OneMoreSample(log: seq<Event>, event: Event, from: nat, handle: Handle, deadline: Instant)
    requires Sampling(log, from, |log|, handle, deadline)
    requires SampleStep(log + [event], from, |log|, handle, deadline)
    ensures Sampling(log + [event], from, |log| + 1, handle, deadline)
  {
    SamplingStays(log, log + [event], from, |log|, handle, deadline);
  }

  /** A preflight that passed did so with a check that accepts. */
  lemma PassedAccepts(log: seq<Event>, from: nat, to: nat, handle: Handle, request: Request)
    requires PreflightPart(log, from, to, handle, request, true)
    ensures Accepts(log[to - 1], handle, request)
  {
  }

  /** Passes only with a check that allows execution, and fails only with the failure of its last call; a
  strict check comes exactly when the bounds that were read have settled. */
  method StablePreflight(adapter: Adapter, handle: Handle, request: Request) returns (r: Result<Delivery>)
    modifies adapter
    ensures old(adapter.log) <= adapter.log && old(adapter.now) <= adapter.now
    ensures PreflightPart(adapter.log, |old(adapter.log)|, |adapter.log|, handle, request, r.Ok?)
    ensures r.Ok? ==> r == adapter.log[|adapter.log| - 1].verdict
    ensures r.Err? ==> r.error == FailureOf(adapter.log[|adapter.log| - 1])
    ensures EndsInTime(adapter.log, adapter.now, request.deadline)
  {
    r := adapter.CheckActionability(handle, false);
    match r {
      case Ok(delivery) =>
        if !request.needsStability || delivery.Semantic? {
          return;
        }
      case Err(error) =>
        if !OnlyStabilityPending(error) {
          return;
        }
    }
    ghost var log := adapter.log;
    r := SampleUntilStable(adapter, handle, request.deadline);
    assert adapter.log[|log| - 1] == log[|log| - 1];
  }

  /** Sampling that ends on a successful read has reached the deadline. */
  ghost predicate EndsInTime(log: seq<Event>, now: Instant, deadline: Instant) {
    |log| > 0 && log[|log| - 1].ReadBounds? && log[|log| - 1].found.Ok? ==> deadline <= now
  }

  method SampleUntilStable(adapter: Adapter, handle: Handle, deadline: Instant) returns (r: Result<Delivery>)
    modifies adapter
    ensures old(adapter.log) <= adapter.log && old(adapter.now) <= adapter.now
    ensures SamplingOver(adapter.log, |old(adapter.log)|, handle, adapter.now, deadline, r)
  {
    ghost var from := |adapter.log|;
    var started := adapter.ReadClock();
    var sampler := new StabilitySampler();
    while true
      invariant sampler.Valid() && fresh(sampler) && old(adapter.log) <= adapter.log && started <= adapter.now
      invariant old(adapter.now) <= adapter.now && SamplingOn(adapter.log, from, handle, deadline)
      invariant Shifted(sampler.samples, SamplesOf(adapter.log[from..]), started)
      decreases if adapter.now < deadline then deadline - adapter.now + 1 else 0
    {
      var end := SampleOnce(adapter, sampler, handle, started, deadline, from);
      if end.Some? {
        return end.value;
      }
    }
  }

  /** A sampling that is to take another sample. */
  ghost predicate SamplingOn(log: seq<Event>, from: nat, handle: Handle, deadline: Instant) {
    Sampling(log, from, |log|, handle, deadline) && (|log| > from ==> log[|log| - 1].Slept?)
  }

  /** A sampling that is over. */
  ghost predicate SamplingOver(
    log: seq<Event>, from: nat, handle: Handle, now: Instant, deadline: Instant, r: Result<Delivery>)
  {
    && from < |log| && Sampling(log, from, |log| - 1, handle, deadline)
    && SamplingEnd(log, from, |log| - 1, handle, deadline) && EndsInTime(log, now, deadline)
    && r == if log[|log| - 1].Checked? then log[|log| - 1].verdict else Err(FailureOf(log[|log| - 1]))
  }

  method SampleOnce(
    adapter: Adapter, sampler: StabilitySampler, handle: Handle, started: Instant, deadline: Instant, ghost from: nat)
    returns (end: Option<Result<Delivery>>)
    requires sampler.Valid() && started <= adapter.now && SamplingOn(adapter.log, from, handle, deadline)
    requires Shifted(sampler.samples, SamplesOf(adapter.log[from..]), started)
    modifies adapter, sampler
    ensures sampler.Valid() && old(adapter.log) <= adapter.log && old(adapter.now) <= adapter.now
    ensures end.None? ==>
              && SamplingOn(adapter.log, from, handle, deadline) && old(adapter.now) < adapter.now
              && old(adapter.now) < deadline && Shifted(sampler.samples, SamplesOf(adapter.log[from..]), started)
    ensures end.Some? ==> SamplingOver(adapter.log, from, handle, adapter.now, deadline, end.value)
  {
    var sampled := TakeSample(adapter, sampler, handle, started, deadline, from);
    WholeSlice(adapter.log, from);
    if sampled.Err? {
      return Some(Err(sampled.error));
    }
    if sampled.value {
      var r := CheckStrictly(adapter, handle, deadline, from);
      return Some(r);
    }
    var expired := PauseSampling(adapter, handle, deadline, from);
    end := if expired then Some(Err(SamplingTimeout())) else None;
  }

  lemma WholeSlice(log: seq<Event>, from: nat)
    requires from <= |log|
    ensures log[from..|log|] == log[from..]
  {
  }

  /** The strict check, once the bounds have settled. */
  method CheckStrictly(adapter: Adapter, handle: Handle, ghost deadline: Instant, ghost from: nat)
    returns (r: Result<Delivery>)
    requires Sampling(adapter.log, from, |adapter.log|, handle, deadline) && from < |adapter.log|
    requires adapter.log[|adapter.log| - 1].ReadBounds? && adapter.log[|adapter.log| - 1].found.Ok?
    requires HasSettled(SamplesOf(adapter.log[from..]))
    modifies adapter
    ensures adapter.log == old(adapter.log) + [Checked(handle, true, r)] && old(adapter.now) <= adapter.now
    ensures Sampling(adapter.log, from, |adapter.log| - 1, handle, deadline)
    ensures SamplingEnd(adapter.log, from, |adapter.log| - 1, handle, deadline)
  {
    ghost var log := adapter.log;
    r := adapter.CheckActionability(handle, true);
    SamplingStays(log, adapter.log, from, |log|, handle, deadline);
    assert adapter.log[from..|log|] == log[from..];
  }

  method PauseSampling(adapter: Adapter, ghost handle: Handle, deadline: Instant, ghost from: nat)
    returns (expired: bool)
    requires Sampling(adapter.log, from, |adapter.log|, handle, deadline) && from < |adapter.log|
    requires adapter.log[|adapter.log| - 1].ReadBounds? && adapter.log[|adapter.log| - 1].found.Ok?
    requires !HasSettled(SamplesOf(adapter.log[from..]))
    modifies adapter
    ensures old(adapter.now) <= adapter.now && (expired ==> adapter.log == old(adapter.log) && deadline <= adapter.now)
    ensures !expired ==>
              && |adapter.log| == |old(adapter.log)| + 1 && old(adapter.log) <= adapter.log
              && old(adapter.now) < deadline && old(adapter.now) < adapter.now
              && SamplingOn(adapter.log, from, handle, deadline)
              && SamplesOf(adapter.log[from..]) == SamplesOf(old(adapter.log)[from..])
  {
    var time := adapter.ReadClock();
    if deadline <= time {
      return true;
    }
    var remaining := deadline - time;
    var duration := if remaining < SAMPLE_INTERVAL_NS then remaining else SAMPLE_INTERVAL_NS;
    ghost var log := adapter.log;
    assert (log + [Slept(time, duration)])[from..|log|] == log[from..];
    OneMoreSample(log, Slept(time, duration), from, handle, deadline);
    SamplesOfMore(log, Slept(time, duration), from);
    adapter.Sleep(duration);
    expired := false;
  }

  method TakeSample(
    adapter: Adapter, sampler: StabilitySampler, handle: Handle, started: Instant, ghost deadline: Instant,
    ghost from: nat)
    returns (r: Result<bool>)
    requires from <= |adapter.log| && sampler.Valid() && started <= adapter.now
    requires Sampling(adapter.log, from, |adapter.log|, handle, deadline)
    requires |adapter.log| > from ==> adapter.log[|adapter.log| - 1].Slept?
    requires Shifted(sampler.samples, SamplesOf(adapter.log[from..]), started)
    modifies adapter, sampler
    ensures sampler.Valid() && old(adapter.now) <= adapter.now
    ensures |adapter.log| == |old(adapter.log)| + 1 && old(adapter.log) <= adapter.log
    ensures var last := adapter.log[|adapter.log| - 1];
            && last.ReadBounds? && last.handle == handle
            && (r.Err? <==> last.found.Err?) && (r.Err? ==> r.error == last.found.error)
    ensures Sampling(adapter.log, from, |adapter.log|, handle, deadline)
    ensures r.Ok? ==> Shifted(sampler.samples, SamplesOf(adapter.log[from..]), started)
    ensures r.Ok? ==> (r.value <==> HasSettled(SamplesOf(adapter.log[from..])))
  {
    ghost var log := adapter.log;
    var bounds, at := adapter.ElementBounds(handle);
    OneMoreSample(log, ReadBounds(handle, bounds, at), from, handle, deadline);
    SamplesOfMore(log, ReadBounds(handle, bounds, at), from);
    if bounds.Err? {
      return Err(bounds.error);
    }
    var stable := sampler.Observe(bounds.value, at - started);
    ShiftedSettles(sampler.samples, SamplesOf(adapter.log[from..]), started);
    r := Ok(stable);
  }

  // ---------------------------------------------------------------- the dispatch

  /** How far one dispatch got, with the positions of its scroll and its execution in the log. */
  datatype Shape =
    | Refused
    | ResolveFailed
    | PreflightFailed
    | ScrollFailed(scroll: nat)
    | SecondResolveFailed(scroll: nat)
    | SecondPreflightFailed(scroll: nat)
    | TraceFailed(rescrolled: Option<nat>)
    | Dispatched(rescrolled: Option<nat>, ready: nat, at: nat, report: Result<ActionResult>)

  /** The first handle was resolved at `from` and its preflight failed just before position `to`. */
  ghost predicate FirstAttempt(log: seq<Event>, from: nat, to: nat, request: Request) {
    && from < to <= |log| && log[from].Resolved? && log[from].outcome.Ok?
    && PreflightPart(log, from + 1, to, log[from].outcome.value, request, false)
  }

  /** The scroll answers a preflight that failed on visibility, for an action that may scroll. */
  ghost predicate Scrolled(log: seq<Event>, from: nat, scroll: nat, request: Request, ok: bool) {
    && FirstAttempt(log, from, scroll, request) && scroll < |log|
    && ShouldScroll(request, FailureOf(log[scroll - 1]))
    && log[scroll].ScrolledIntoView? && log[scroll].handle == log[from].outcome.value && log[scroll].done.Ok? == ok
  }

  function LastResolve(from: nat, rescrolled: Option<nat>): nat {
    if rescrolled.Some? then rescrolled.value + 1 else from
  }

  /** Ready at `to`: the last resolved handle passed its last preflight just before. */
  ghost predicate ReadyAt(log: seq<Event>, from: nat, rescrolled: Option<nat>, to: nat, request: Request) {
    var q := LastResolve(from, rescrolled);
    && (rescrolled.Some? ==> Scrolled(log, from, rescrolled.value, request, true))
    && q < to <= |log| && log[q].Resolved? && log[q].outcome.Ok?
    && PreflightPart(log, q + 1, to, log[q].outcome.value, request, true)
  }

  /** Semantic delivery is dispatched headless whatever the request asked for. */
  predicate FinalHeaded(request: Request, delivery: Delivery) {
    request.headed && !delivery.Semantic?
  }

  /** The verified action's own report. */
  ghost predicate Verified(
    log: seq<Event>, numericMatch: (Text, Text) -> bool, ready: nat, at: nat, handle: Handle, request: Request,
    now: Instant, report: Result<ActionResult>)
    requires ready <= at < |log| && log[at].Executed?
  {
    if request.action.RequiresReadback() then
      && PostAction.PreReads(log, ready, at, handle, request.action, log[at].headed)
      && PostAction.StatefulRun(log, numericMatch, ready, at, handle, request.action, request.deadline, now, report)
    else report == log[at].result && at == ready && |log| == at + 1
  }

  /** The events up to a completion trace that failed, if the last event is one. */
  ghost function UpToTrace(log: seq<Event>): seq<Event> {
    if |log| > 0 && log[|log| - 1].TraceRefused? then log[..|log| - 1] else log
  }

  /** The result is the verified action's own report, unless that is a success whose completion could not be traced:
  then, and only then, it is the trace's error, which keeps the delivery. */
  ghost predicate Reported(log: seq<Event>, report: Result<ActionResult>, r: Result<ActionResult>) {
    if |log| > 0 && log[|log| - 1].TraceRefused? then
      report.Ok? && r == Err(log[|log| - 1].error.(disposition := DeliveredUnverified))
    else r == report
  }

  function StaleRefError(): Error {
    Error(StaleRef, NotDelivered, Unspecified, None, false, false)
  }

  ghost predicate Fits(
    log: seq<Event>, numericMatch: (Text, Text) -> bool, from: nat, shape: Shape, request: Request, now: Instant,
    r: Result<ActionResult>)
  {
    match shape
    case Refused => |log| == from && r == Err(StaleRefError())
    case ResolveFailed =>
      && |log| == from + 1 && log[from].Resolved? && log[from].outcome.Err?
      && r == Err(MarkPreDispatch(log[from].outcome.error))
    case PreflightFailed =>
      && FirstAttempt(log, from, |log|, request)
      && r == Err(FailureOf(log[|log| - 1])) && !ShouldScroll(request, r.error)
      && EndsInTime(log, now, request.deadline)
    case ScrollFailed(i) => |log| == i + 1 && Scrolled(log, from, i, request, false) && r == Err(log[i].done.error)
    case SecondResolveFailed(i) =>
      && |log| == i + 2 && Scrolled(log, from, i, request, true)
      && log[i + 1].Resolved? && log[i + 1].outcome.Err? && r == Err(AfterScroll(log[i + 1].outcome.error))
    case SecondPreflightFailed(i) =>
      && |log| > i + 2 && Scrolled(log, from, i, request, true) && log[i + 1].Resolved? && log[i + 1].outcome.Ok?
      && PreflightPart(log, i + 2, |log|, log[i + 1].outcome.value, request, false)
      && r == Err(AfterScroll(FailureOf(log[|log| - 1]))) && EndsInTime(log, now, request.deadline)
    case TraceFailed(rescrolled) =>
      && |log| > 0 && ReadyAt(log, from, rescrolled, |log| - 1, request)
      && log[|log| - 1].TraceRefused? && r == Err(log[|log| - 1].error)
    case Dispatched(rescrolled, ready, at, report) =>
      ReadyAt(log, from, rescrolled, ready, request) && Acts(log, numericMatch, from, shape, request, now, r)
  }

  /** The part of a dispatch after its trace: one execution on the ready handle, and its report. */
  ghost predicate Acts(
    log: seq<Event>, numericMatch: (Text, Text) -> bool, from: nat, shape: Shape, request: Request, now: Instant,
    r: Result<ActionResult>)
    requires shape.Dispatched? && ReadyAt(log, from, shape.rescrolled, shape.ready, request)
  {
    var handle, acted := log[LastResolve(from, shape.rescrolled)].outcome.value, UpToTrace(log);
    && PostAction.ExecutesOnce(acted, shape.ready, shape.at, handle, request.action,
                               FinalHeaded(request, log[shape.ready - 1].verdict.value))
    && Verified(acted, numericMatch, shape.ready, shape.at, handle, request, now, shape.report)
    && Reported(log, shape.report, r)
  }

  lemma PartStays(
    log: seq<Event>, longer: seq<Event>, from: nat, to: nat, handle: Handle, request: Request, passed: bool)
    requires log <= longer && PreflightPart(log, from, to, handle, request, passed)
    ensures PreflightPart(longer, from, to, handle, request, passed)
  {
    if to > from + 1 {
      SamplingStays(log, longer, from + 1, to - 1, handle, request.deadline);
      StepStays(log, longer, from + 1, to - 1, handle, request.deadline);
    }
  }

  /** One dispatch under the lease, for every adapter and every trace sink. */
  method DispatchResolved(adapter: Adapter, request: Request, instanceKnown: bool)
    returns (r: Result<ActionResult>, ghost shape: Shape)
    modifies adapter
    ensures old(adapter.log) <= adapter.log && old(adapter.now) <= adapter.now
    ensures shape.Refused? <==> !instanceKnown
    ensures Fits(adapter.log, adapter.numericMatch, |old(adapter.log)|, shape, request, adapter.now, r)
  {
    ghost var from := |adapter.log|;
    if !instanceKnown {
      return Err(StaleRefError()), Refused;
    }
    var resolved := adapter.ResolveElement();
    if resolved.Err? {
      return Err(MarkPreDispatch(resolved.error)), ResolveFailed;
    }
    var handle := resolved.value;
    ghost var log := adapter.log;
    var preflight := StablePreflight(adapter, handle, request);
    if preflight.Ok? {
      PassedAccepts(adapter.log, from + 1, |adapter.log|, handle, request);
      r, shape := ExecuteReady(adapter, handle, request, preflight.value, from, None);
    } else {
      r, shape := ScrollOrFail(adapter, handle, request, preflight.error, from);
    }
  }

  /** After a first preflight that failed. */
  method ScrollOrFail(
    adapter: Adapter, handle: Handle, request: Request, error: Error, ghost from: nat)
    returns (r: Result<ActionResult>, ghost shape: Shape)
    requires EndsInTime(adapter.log, adapter.now, request.deadline)
    requires FirstAttempt(adapter.log, from, |adapter.log|, request) && adapter.log[from].outcome.value == handle
    requires error == FailureOf(adapter.log[|adapter.log| - 1])
    modifies adapter
    ensures old(adapter.log) <= adapter.log && old(adapter.now) <= adapter.now
    ensures Fits(adapter.log, adapter.numericMatch, from, shape, request, adapter.now, r) && !shape.Refused?
  {
    if !ShouldScroll(request, error) {
      return Err(error), PreflightFailed;
    }
    ghost var scroll := |adapter.log|;
    ghost var log := adapter.log;
    var scrolled := adapter.ScrollIntoView(handle);
    PartStays(log, adapter.log, from + 1, scroll, handle, request, false);
    if scrolled.Err? {
      return Err(scrolled.error), ScrollFailed(scroll);
    }
    r, shape := RetryAfterScroll(adapter, request, from, scroll);
  }

  lemma ScrolledStays(log: seq<Event>, longer: seq<Event>, from: nat, scroll: nat, request: Request, ok: bool)
    requires log <= longer && Scrolled(log, from, scroll, request, ok)
    ensures Scrolled(longer, from, scroll, request, ok)
  {
    PartStays(log, longer, from + 1, scroll, log[from].outcome.value, request, false);
  }

  method RetryAfterScroll(adapter: Adapter, request: Request, ghost from: nat, ghost scroll: nat)
    returns (r: Result<ActionResult>, ghost shape: Shape)
    requires |adapter.log| == scroll + 1 && Scrolled(adapter.log, from, scroll, request, true)
    modifies adapter
    ensures old(adapter.log) <= adapter.log && old(adapter.now) <= adapter.now
    ensures Fits(adapter.log, adapter.numericMatch, from, shape, request, adapter.now, r) && !shape.Refused?
  {
    ghost var log := adapter.log;
    var resolved := adapter.ResolveElement();
    ScrolledStays(log, adapter.log, from, scroll, request, true);
    if resolved.Err? {
      return Err(AfterScroll(resolved.error)), SecondResolveFailed(scroll);
    }
    r, shape := PreflightAgain(adapter, request, resolved.value, from, scroll);
  }

  method PreflightAgain(
    adapter: Adapter, request: Request, handle: Handle, ghost from: nat, ghost scroll: nat)
    returns (r: Result<ActionResult>, ghost shape: Shape)
    requires |adapter.log| == scroll + 2 && Scrolled(adapter.log, from, scroll, request, true)
    requires adapter.log[scroll + 1] == Resolved(Ok(handle))
    modifies adapter
    ensures old(adapter.log) <= adapter.log && old(adapter.now) <= adapter.now
    ensures Fits(adapter.log, adapter.numericMatch, from, shape, request, adapter.now, r) && !shape.Refused?
  {
    ghost var log := adapter.log;
    var preflight := StablePreflight(adapter, handle, request);
    ScrolledStays(log, adapter.log, from, scroll, request, true);
    if preflight.Err? {
      return Err(AfterScroll(preflight.error)), SecondPreflightFailed(scroll);
    }
    PassedAccepts(adapter.log, |log|, |adapter.log|, handle, request);
    r, shape := ExecuteReady(adapter, handle, request, preflight.value, from, Some(scroll));
  }

  lemma ReadyStays(log: seq<Event>, longer: seq<Event>, from: nat, rescrolled: Option<nat>, to: nat, request: Request)
    requires log <= longer && ReadyAt(log, from, rescrolled, to, request)
    ensures ReadyAt(longer, from, rescrolled, to, request)
  {
    var q := LastResolve(from, rescrolled);
    PartStays(log, longer, q + 1, to, log[q].outcome.value, request, true);
    if rescrolled.Some? {
      ScrolledStays(log, longer, from, rescrolled.value, request, true);
    }
  }

  lemma DispatchFits(
    log: seq<Event>, longer: seq<Event>, numericMatch: (Text, Text) -> bool, from: nat, rescrolled: Option<nat>,
    at: nat, handle: Handle, request: Request, now: Instant, report: Result<ActionResult>, r: Result<ActionResult>)
    requires log <= longer && ReadyAt(log, from, rescrolled, |log|, request)
    requires log[LastResolve(from, rescrolled)].outcome == Ok(handle)
    requires PostAction.ExecutesOnce(UpToTrace(longer), |log|, at, handle, request.action,
                                     FinalHeaded(request, log[|log| - 1].verdict.value))
    requires Verified(UpToTrace(longer), numericMatch, |log|, at, handle, request, now, report)
    requires Reported(longer, report, r)
    ensures Fits(longer, numericMatch, from, Dispatched(rescrolled, |log|, at, report), request, now, r)
  {
    ReadyStays(log, longer, from, rescrolled, |log|, request);
  }

  lemma TraceFits(
    log: seq<Event>, longer: seq<Event>, numericMatch: (Text, Text) -> bool, from: nat, rescrolled: Option<nat>,
    request: Request, now: Instant, error: Error)
    requires longer == log + [TraceRefused(error)] && ReadyAt(log, from, rescrolled, |log|, request)
    ensures Fits(longer, numericMatch, from, TraceFailed(rescrolled), request, now, Err(error))
  {
    ReadyStays(log, longer, from, rescrolled, |log|, request);
  }

  method ExecuteReady(
    adapter: Adapter, handle: Handle, request: Request, delivery: Delivery, ghost from: nat,
    ghost rescrolled: Option<nat>)
    returns (r: Result<ActionResult>, ghost shape: Shape)
    requires ReadyAt(adapter.log, from, rescrolled, |adapter.log|, request)
    requires adapter.log[LastResolve(from, rescrolled)].outcome == Ok(handle)
    requires adapter.log[|adapter.log| - 1].verdict == Ok(delivery)
    modifies adapter
    ensures old(adapter.log) <= adapter.log && old(adapter.now) <= adapter.now
    ensures Fits(adapter.log, adapter.numericMatch, from, shape, request, adapter.now, r) && !shape.Refused?
  {
    ghost var log := adapter.log;
    var traced := adapter.Trace();
    if traced.Err? {
      TraceFits(log, adapter.log, adapter.numericMatch, from, rescrolled, request, adapter.now, traced.error);
      return Err(traced.error), TraceFailed(rescrolled);
    }
    r, shape := ActOnReady(adapter, handle, request, delivery, from, rescrolled);
  }

  method ActOnReady(
    adapter: Adapter, handle: Handle, request: Request, delivery: Delivery, ghost from: nat,
    ghost rescrolled: Option<nat>)
    returns (r: Result<ActionResult>, ghost shape: Shape)
    requires ReadyAt(adapter.log, from, rescrolled, |adapter.log|, request)
    requires adapter.log[LastResolve(from, rescrolled)].outcome == Ok(handle)
    requires adapter.log[|adapter.log| - 1].verdict == Ok(delivery)
    modifies adapter
    ensures old(adapter.log) <= adapter.log && old(adapter.now) <= adapter.now
    ensures Fits(adapter.log, adapter.numericMatch, from, shape, request, adapter.now, r) && !shape.Refused?
  {
    ghost var log := adapter.log;
    ghost var ready := |log|;
    var headed := if delivery.Semantic? then false else request.headed;
    ghost var at, report;
    r, at, report := ExecuteAndTrace(adapter, handle, request, headed);
    shape := Dispatched(rescrolled, ready, at, report);
    DispatchFits(log, adapter.log, adapter.numericMatch, from, rescrolled, at, handle, request, adapter.now, report, r);
  }

  /** The verified action; a success that cannot be traced is reported as delivered but unverified. */
  method ExecuteAndTrace(adapter: Adapter, handle: Handle, request: Request, headed: bool)
    returns (r: Result<ActionResult>, ghost at: nat, ghost report: Result<ActionResult>)
    modifies adapter
    ensures old(adapter.log) <= adapter.log && old(adapter.now) <= adapter.now
    ensures PostAction.ExecutesOnce(UpToTrace(adapter.log), |old(adapter.log)|, at, handle, request.action, headed)
    ensures Verified(UpToTrace(adapter.log), adapter.numericMatch, |old(adapter.log)|, at, handle, request, adapter.now,
                     report)
    ensures Reported(adapter.log, report, r)
  {
    r, at := PostAction.ExecuteVerifiedAction(adapter, handle, request.action, headed, request.deadline);
    report := r;
    ghost var log, now := adapter.log, adapter.now;
    EndsActing(log, |old(adapter.log)|, at, handle, request.action, headed);
    if r.Ok? {
      var traced := adapter.Trace();
      if traced.Err? {
        r := Err(traced.error.(disposition := DeliveredUnverified));
      }
    }
    VerifiedLater(log, adapter.numericMatch, |old(adapter.log)|, at, handle, request, now, adapter.now, report);
    assert UpToTrace(adapter.log) == log;
  }

  lemma VerifiedLater(
    log: seq<Event>, numericMatch: (Text, Text) -> bool, ready: nat, at: nat, handle: Handle, request: Request,
    now: Instant, later: Instant, report: Result<ActionResult>)
    requires ready <= at < |log| && log[at].Executed? && now <= later
    requires Verified(log, numericMatch, ready, at, handle, request, now, report)
    ensures Verified(log, numericMatch, ready, at, handle, request, later, report)
  {
    if request.action.RequiresReadback() {
      PostAction.StillRuns(log, numericMatch, ready, at, handle, request.action, request.deadline, now, later, report);
    }
  }

  /** The execution and its reads do not end in a trace. */
  lemma EndsActing(log: seq<Event>, from: nat, at: nat, handle: Handle, action: Action, headed: bool)
    requires PostAction.ExecutesOnce(log, from, at, handle, action, headed)
    ensures UpToTrace(log) == log
  {
    assert |log| - 1 > at ==> PostAction.IsRead(log[|log| - 1], handle) || log[|log| - 1].Slept?;
  }

  // ---------------------------------------------------------------- what every dispatch run satisfies

  predicate IsExecution(event: Event) {
    event.Executed?
  }

  predicate IsScroll(event: Event) {
    event.ScrolledIntoView?
  }

  /** The position of the scroll, if there is one. */
  function ScrollOf(shape: Shape): Option<nat> {
    match shape
    case ScrollFailed(i) => Some(i)
    case SecondResolveFailed(i) => Some(i)
    case SecondPreflightFailed(i) => Some(i)
    case TraceFailed(rescrolled) => rescrolled
    case Dispatched(rescrolled, _, _, _) => rescrolled
    case _ => None
  }

  lemma PartIsQuiet(log: seq<Event>, from: nat, to: nat, handle: Handle, request: Request, passed: bool, i: nat)
    requires PreflightPart(log, from, to, handle, request, passed) && from <= i < to
    ensures log[i].Checked? || log[i].ReadBounds? || log[i].Slept?
  {
    if from < i < to - 1 {
      assert SampleStep(log, from + 1, i, handle, request.deadline);
    }
  }

  lemma UpToScroll(log: seq<Event>, from: nat, scroll: nat, request: Request, ok: bool, i: nat)
    requires Scrolled(log, from, scroll, request, ok) && from <= i <= scroll
    ensures !IsExecution(log[i]) && (IsScroll(log[i]) <==> i == scroll)
  {
    if from < i < scroll {
      PartIsQuiet(log, from + 1, scroll, log[from].outcome.value, request, false, i);
    }
  }

  lemma UpToReady(log: seq<Event>, from: nat, rescrolled: Option<nat>, ready: nat, request: Request, i: nat)
    requires ReadyAt(log, from, rescrolled, ready, request) && from <= i < ready
    ensures !IsExecution(log[i]) && (IsScroll(log[i]) <==> rescrolled == Some(i))
  {
    var q := LastResolve(from, rescrolled);
    if rescrolled.Some? && i <= rescrolled.value {
      UpToScroll(log, from, rescrolled.value, request, true, i);
    } else if i > q {
      PartIsQuiet(log, q + 1, ready, log[q].outcome.value, request, true, i);
    }
  }

  /** What happens where: the one execution and the one scroll are at the positions the shape names. */
  lemma EventsOf(
    log: seq<Event>, numericMatch: (Text, Text) -> bool, from: nat, shape: Shape, request: Request, now: Instant,
    r: Result<ActionResult>, i: nat)
    requires Fits(log, numericMatch, from, shape, request, now, r) && from <= i < |log|
    ensures IsExecution(log[i]) <==> shape.Dispatched? && i == shape.at
    ensures IsScroll(log[i]) <==> ScrollOf(shape) == Some(i)
  {
    match shape
    case TraceFailed(rescrolled) =>
      if i < |log| - 1 {
        UpToReady(log, from, rescrolled, |log| - 1, request, i);
      }
      LastIsBefore(from, rescrolled, log, |log| - 1, request);
    case Dispatched(_, _, _, _) => EventsOfActing(log, numericMatch, from, shape, request, now, r, i);
    case _ => EventsOfFailing(log, numericMatch, from, shape, request, now, r, i);
  }

  lemma EventsOfFailing(
    log: seq<Event>, numericMatch: (Text, Text) -> bool, from: nat, shape: Shape, request: Request, now: Instant,
    r: Result<ActionResult>, i: nat)
    requires Fits(log, numericMatch, from, shape, request, now, r) && from <= i < |log|
    requires !shape.TraceFailed? && !shape.Dispatched?
    ensures !IsExecution(log[i]) && (IsScroll(log[i]) <==> ScrollOf(shape) == Some(i))
  {
    match shape
    case Refused =>
    case ResolveFailed =>
    case PreflightFailed =>
      if i > from {
        PartIsQuiet(log, from + 1, |log|, log[from].outcome.value, request, false, i);
      }
    case ScrollFailed(scroll) => UpToScroll(log, from, scroll, request, false, i);
    case SecondResolveFailed(scroll) =>
      if i <= scroll {
        UpToScroll(log, from, scroll, request, true, i);
      }
    case SecondPreflightFailed(scroll) =>
      if i <= scroll {
        UpToScroll(log, from, scroll, request, true, i);
      } else if i > scroll + 1 {
        PartIsQuiet(log, scroll + 2, |log|, log[scroll + 1].outcome.value, request, false, i);
      }
  }

  lemma EventsOfActing(
    log: seq<Event>, numericMatch: (Text, Text) -> bool, from: nat, shape: Shape, request: Request, now: Instant,
    r: Result<ActionResult>, i: nat)
    requires shape.Dispatched? && ReadyAt(log, from, shape.rescrolled, shape.ready, request)
    requires Acts(log, numericMatch, from, shape, request, now, r) && from <= i < |log|
    ensures IsExecution(log[i]) <==> i == shape.at
    ensures IsScroll(log[i]) <==> shape.rescrolled == Some(i)
  {
    LastIsBefore(from, shape.rescrolled, log, shape.ready, request);
    if i < shape.ready {
      UpToReady(log, from, shape.rescrolled, shape.ready, request, i);
    } else {
      assert i < |UpToTrace(log)| ==> UpToTrace(log)[i] == log[i];
    }
  }

  lemma LastIsBefore(from: nat, rescrolled: Option<nat>, log: seq<Event>, ready: nat, request: Request)
    requires ReadyAt(log, from, rescrolled, ready, request)
    ensures rescrolled.Some? ==> rescrolled.value < ready
  {
  }

  /** At most one execution and at most one scroll. */
  lemma AtMostOneEach(
    log: seq<Event>, numericMatch: (Text, Text) -> bool, from: nat, shape: Shape, request: Request, now: Instant,
    r: Result<ActionResult>, i: nat, j: nat)
    requires Fits(log, numericMatch, from, shape, request, now, r)
    requires from <= i < |log| && from <= j < |log|
    ensures IsExecution(log[i]) && IsExecution(log[j]) ==> i == j
    ensures IsScroll(log[i]) && IsScroll(log[j]) ==> i == j
  {
    EventsOf(log, numericMatch, from, shape, request, now, r, i);
    EventsOf(log, numericMatch, from, shape, request, now, r, j);
  }

  /** Execution acts on the latest resolved handle, right after that handle passed its last check, which
  was the strict one when stability is required and delivery is not semantic. */
  lemma ExecutionFollowsItsCheck(
    log: seq<Event>, numericMatch: (Text, Text) -> bool, from: nat, shape: Shape, request: Request, now: Instant,
    r: Result<ActionResult>, k: nat)
    returns (q: nat, c: nat)
    requires Fits(log, numericMatch, from, shape, request, now, r)
    requires from <= k < |log| && IsExecution(log[k])
    ensures from <= q < c < k && log[q] == Resolved(Ok(log[k].handle)) && Accepts(log[c], log[k].handle, request)
    ensures forall i :: q < i < k ==> !log[i].Resolved? && !IsScroll(log[i])
    ensures forall i :: c < i < k ==> !log[i].Checked?
    ensures log[c].strict ==> q + 2 <= c && HasSettled(SamplesOf(log[q + 2..c]))
    ensures log[k].action == request.action && (log[k].headed <==> request.headed && !log[c].verdict.value.Semantic?)
  {
    EventsOf(log, numericMatch, from, shape, request, now, r, k);
    q, c := ActsFollow(log, numericMatch, from, shape, request, now, r);
  }

  lemma ActsFollow(
    log: seq<Event>, numericMatch: (Text, Text) -> bool, from: nat, shape: Shape, request: Request, now: Instant,
    r: Result<ActionResult>)
    returns (q: nat, c: nat)
    requires shape.Dispatched? && ReadyAt(log, from, shape.rescrolled, shape.ready, request)
    requires Acts(log, numericMatch, from, shape, request, now, r)
    ensures var k := shape.at;
            && from <= q < c < k < |log| && log[k].Executed? && log[q] == Resolved(Ok(log[k].handle))
            && Accepts(log[c], log[k].handle, request)
            && (forall i :: q < i < k ==> !log[i].Resolved? && !IsScroll(log[i]))
            && (forall i :: c < i < k ==> !log[i].Checked?)
            && (log[c].strict ==> q + 2 <= c && HasSettled(SamplesOf(log[q + 2..c])))
            && log[k].action == request.action
            && (log[k].headed <==> request.headed && !log[c].verdict.value.Semantic?)
  {
    q := LastResolve(from, shape.rescrolled);
    c := shape.ready - 1;
    ReadyThenActs(log, from, shape.rescrolled, c + 1, shape.at, log[q].outcome.value, request,
                  FinalHeaded(request, log[c].verdict.value));
  }

  lemma ReadyThenActs(
    log: seq<Event>, from: nat, rescrolled: Option<nat>, ready: nat, k: nat, handle: Handle, request: Request,
    headed: bool)
    requires ReadyAt(log, from, rescrolled, ready, request)
    requires log[LastResolve(from, rescrolled)].outcome.value == handle
    requires PostAction.ExecutesOnce(UpToTrace(log), ready, k, handle, request.action, headed)
    ensures var q, c := LastResolve(from, rescrolled), ready - 1;
            && from <= q < c < k < |log| && log[q] == Resolved(Ok(handle)) && log[k].Executed?
            && log[k].handle == handle && log[k].action == request.action && log[k].headed == headed
            && Accepts(log[c], handle, request)
            && (forall i :: q < i < k ==> !log[i].Resolved? && !IsScroll(log[i]))
            && (forall i :: c < i < k ==> !log[i].Checked?)
            && (log[c].strict ==> q + 2 <= c && HasSettled(SamplesOf(log[q + 2..c])))
  {
    var q, c := LastResolve(from, rescrolled), ready - 1;
    PassedAccepts(log, q + 1, ready, handle, request);
    forall i | q < i < k
      ensures !log[i].Resolved? && !IsScroll(log[i]) && (c < i ==> !log[i].Checked?)
    {
      Between(log, q, c, k, handle, request, headed, i);
    }
  }

  /** What can happen between the last resolve, its last check and the execution. */
  lemma Between(
    log: seq<Event>, q: nat, c: nat, k: nat, handle: Handle, request: Request, headed: bool, i: nat)
    requires PreflightPart(log, q + 1, c + 1, handle, request, true)
    requires PostAction.ExecutesOnce(UpToTrace(log), c + 1, k, handle, request.action, headed) && q < i < k
    ensures log[i].Checked? || log[i].ReadBounds? || log[i].Slept? || log[i].ReadElement? || log[i].ReadSelection?
    ensures c < i ==> !log[i].Checked?
  {
    if i <= c {
      PartIsQuiet(log, q + 1, c + 1, handle, request, true, i);
    } else {
      assert UpToTrace(log)[i] == log[i];
    }
  }

  /** A scroll happens only for an action that may scroll, after a preflight that failed on visibility; it
  is followed by a fresh resolve, if it succeeded. */
  lemma ScrollAnswersInvisibility(
    log: seq<Event>, numericMatch: (Text, Text) -> bool, from: nat, shape: Shape, request: Request, now: Instant,
    r: Result<ActionResult>, i: nat)
    requires Fits(log, numericMatch, from, shape, request, now, r)
    requires from <= i < |log| && IsScroll(log[i])
    ensures i > from && request.action.RequiresScrollIntoView() && FailedCheck(FailureOf(log[i - 1]), Visible)
    ensures log[i].done.Ok? ==> i + 1 < |log| && log[i + 1].Resolved?
    ensures log[i].done.Err? ==> i + 1 == |log| && r == Err(log[i].done.error)
  {
    EventsOf(log, numericMatch, from, shape, request, now, r, i);
    match shape
    case TraceFailed(_) => ReadyScrolled(log, from, i, |log| - 1, request);
    case Dispatched(_, ready, _, _) => ReadyScrolled(log, from, i, ready, request);
    case _ =>
  }

  lemma ReadyScrolled(log: seq<Event>, from: nat, scroll: nat, ready: nat, request: Request)
    requires ReadyAt(log, from, Some(scroll), ready, request)
    ensures Scrolled(log, from, scroll, request, true) && scroll + 1 < |log| && log[scroll + 1].Resolved?
  {
  }

  /** Every resolve or preflight failure after the scroll has been marked: it is the failure of the last call,
  it mentions the scroll and no longer claims that nothing was delivered. (A failed scroll itself, a failure to
  trace the start, and anything after execution are reported as they are.) */
  lemma FailuresAfterScrollAreMarked(
    log: seq<Event>, numericMatch: (Text, Text) -> bool, from: nat, shape: Shape, request: Request, now: Instant,
    r: Result<ActionResult>, i: nat)
    requires Fits(log, numericMatch, from, shape, request, now, r) && r.Err?
    requires from <= i < |log| && IsScroll(log[i]) && log[i].done.Ok?
    requires forall k :: from <= k < |log| ==> !IsExecution(log[k])
    requires !log[|log| - 1].TraceRefused?
    ensures var last := log[|log| - 1];
            r.error == AfterScroll(if last.Resolved? && last.outcome.Err? then last.outcome.error else FailureOf(last))
    ensures r.error.scrolled && !r.error.disposition.NotDelivered? && !r.error.disposition.Unknown?
  {
    EventsOf(log, numericMatch, from, shape, request, now, r, i);
    if shape.Dispatched? {
      EventsOf(log, numericMatch, from, shape, request, now, r, shape.at);
    }
  }

  /** A failure that says not delivered means nothing was executed, or the adapter itself said so. */
  lemma NotDeliveredIsHonest(
    log: seq<Event>, numericMatch: (Text, Text) -> bool, from: nat, shape: Shape, request: Request, now: Instant,
    r: Result<ActionResult>, k: nat)
    requires Fits(log, numericMatch, from, shape, request, now, r)
    requires DispositionOf(r).NotDelivered?
    requires from <= k < |log| && IsExecution(log[k])
    ensures DispositionOf(log[k].result).NotDelivered?
  {
    EventsOf(log, numericMatch, from, shape, request, now, r, k);
    if request.action.RequiresReadback() {
      var handle := log[LastResolve(from, shape.rescrolled)].outcome.value;
      PostAction.StatefulRunIsHonest(UpToTrace(log), numericMatch, shape.ready, k, handle, request.action,
                                     request.deadline, now, shape.report);
    }
  }

  // ---------------------------------------------------------------- waiting before the lease

  predicate RetryIsUnsafe(disposition: Disposition) {
    disposition.Uncertain? || disposition.DeliveredUnverified? || disposition.DeliveredVerified?
  }

  predicate RetryableResolution(error: Error) {
    && (error.code.StaleRef? || error.code.AmbiguousTarget? || error.code.TimedOut? || error.code.AppUnresponsive?)
    && error.retryability.Retryable?
  }

  predicate PermanentActionability(error: Error) {
    || error.code.PermDenied? || error.code.AppNotFound? || error.code.ActionNotSupported? || error.code.InvalidArgs?
    || error.code.PolicyDenied? || error.code.Internal? || error.code.StaleRef? || error.code.AmbiguousTarget?
    || error.retryability.NonRetryable?
  }

  /** One resolve attempt ran out of its slice, and nothing says that trying again is unsafe or useless. */
  predicate IsAttemptTimeout(error: Error) {
    error.code.TimedOut? && !error.retryability.NonRetryable? && !RetryIsUnsafe(error.disposition)
  }

  /** A resolve error as the loop sees it. */
  function ClassifyResolve(error: Error): Error {
    if IsAttemptTimeout(error) then error.(retryability := Retryable) else error
  }

  predicate IsFailure(event: Event) {
    (event.Checked? && event.verdict.Err?) || (event.Resolved? && event.outcome.Err?)
  }

  predicate IsIncompleteRead(event: Event) {
    event.Checked? && event.verdict.Err? && event.verdict.error.incompleteRead
  }

  predicate IsAmbiguity(event: Event) {
    event.Resolved? && event.outcome.Err? && event.outcome.error.code.AmbiguousTarget?
  }

  /** The tool is to blame if there was a failure and every one was an incomplete live read. */
  ghost predicate BlamesTool(failures: seq<Event>) {
    failures != [] && forall i :: 0 <= i < |failures| ==> IsIncompleteRead(failures[i])
  }

  /** The failed attempts of a wait, in order. */
  function FailuresOf(events: seq<Event>): seq<Event> {
    if events == [] then []
    else
      var last := events[|events| - 1];
      FailuresOf(events[..|events| - 1]) + (if IsFailure(last) then [last] else [])
  }

  lemma {:induction false} FailuresAppend(a: seq<Event>, b: seq<Event>)
    ensures FailuresOf(a + b) == FailuresOf(a) + FailuresOf(b)
  {
    if b == [] {
      assert a + b == a;
    } else {
      FailuresAppend(a, b[..|b| - 1]);
      assert (a + b)[..|a + b| - 1] == a + b[..|b| - 1];
    }
  }

  lemma FailuresOfOne(event: Event)
    ensures FailuresOf([event]) == if IsFailure(event) then [event] else []
  {
    assert [event][..0] == [];
  }

  /** The error of a wait that reached its deadline. */
  ghost function DeadlineError(failures: seq<Event>): Error {
    if BlamesTool(failures) then Error(ActionFailed, NotDelivered, NonRetryable, None, false, false)
    else Error(TimedOut, NotDelivered, Unspecified, None, false, false)
  }

  class PollState {
    var sawAmbiguity: bool
    var onlyIncompleteReads: Option<bool>
    var resolveAttempts: nat
    var preflightAttempts: nat
    ghost var recorded: seq<Event>

    /** The flags summarize the recorded failures. */
    ghost predicate Valid()
      reads this
    {
      && (onlyIncompleteReads == Some(true) <==> BlamesTool(recorded))
      && (onlyIncompleteReads == None <==> recorded == [])
      && (sawAmbiguity <==> exists i :: 0 <= i < |recorded| && IsAmbiguity(recorded[i]))
    }

    constructor ()
      ensures Valid() && recorded == [] && resolveAttempts == 0 && preflightAttempts == 0
    {
      sawAmbiguity, onlyIncompleteReads, resolveAttempts, preflightAttempts := false, None, 0, 0;
      recorded := [];
    }

    /** A refused check that is to be waited out. */
    method RecordPreflight(error: Error, ghost event: Event)
      requires Valid() && event.Checked? && event.verdict == Err(error)
      modifies this`onlyIncompleteReads, this`recorded
      ensures Valid() && recorded == old(recorded) + [event]
    {
      onlyIncompleteReads := Some((onlyIncompleteReads.None? || onlyIncompleteReads.value) && error.incompleteRead);
      recorded := recorded + [event];
      Summarize(old(recorded), event);
    }

    /** A failed resolve that is to be waited out. */
    method RecordResolve(error: Error, ghost event: Event)
      requires Valid() && event.Resolved? && event.outcome.Err? && event.outcome.error.code == error.code
      modifies this`onlyIncompleteReads, this`sawAmbiguity, this`recorded
      ensures Valid() && recorded == old(recorded) + [event]
    {
      sawAmbiguity := sawAmbiguity || error.code.AmbiguousTarget?;
      onlyIncompleteReads := Some(false);
      recorded := recorded + [event];
      Summarize(old(recorded), event);
    }

    /** The deadline error; it blames the tool exactly if every recorded failure was an incomplete live read. */
    method Timeout() returns (error: Error)
      requires Valid()
      ensures error == DeadlineError(recorded)
    {
      if onlyIncompleteReads == Some(true) {
        return Error(ActionFailed, NotDelivered, NonRetryable, None, false, false);
      }
      return Error(TimedOut, NotDelivered, Unspecified, None, false, false);
    }
  }

  lemma Summarize(failures: seq<Event>, event: Event)
    ensures BlamesTool(failures + [event]) <==> (failures == [] || BlamesTool(failures)) && IsIncompleteRead(event)
    ensures (exists i :: 0 <= i < |failures + [event]| && IsAmbiguity((failures + [event])[i])) <==>
              (exists i :: 0 <= i < |failures| && IsAmbiguity(failures[i])) || IsAmbiguity(event)
  {
    var longer := failures + [event];
    assert longer[|failures|] == event;
    assert forall i :: 0 <= i < |failures| ==> longer[i] == failures[i];
  }

  /** A refusal that dispatch itself can cure, by focusing the window or by scrolling. */
  predicate Excused(request: Request, error: Error) {
    (request.needsFocus && FailedCheck(error, ReceivesEvents)) || ShouldScroll(request, error)
  }

  /** A failure that the wait sits out: a resolve that may be retried, or a refusal that is neither permanent nor
  curable by dispatch. */
  predicate Waitable(request: Request, event: Event) {
    match event
    case Resolved(Err(error)) => RetryableResolution(MarkPreDispatch(ClassifyResolve(error)))
    case Checked(_, _, Err(error)) => !PermanentActionability(error) && !Excused(request, error)
    case _ => false
  }

  /** The handle that was just resolved is ready: its check passed, or failed curably. */
  ghost predicate ReadyToDispatch(log: seq<Event>, from: nat, request: Request) {
    && |log| >= from + 2 && var last := log[|log| - 1];
       && last.Checked? && log[|log| - 2] == Resolved(Ok(last.handle))
       && (last.verdict.Err? ==> Excused(request, last.verdict.error))
  }

  /** The last event is a failure that retrying cannot help, and this is its error. */
  predicate FailedForGood(log: seq<Event>, from: nat, request: Request, error: Error) {
    from < |log| && match log[|log| - 1]
    case Resolved(Err(e)) =>
      error == MarkPreDispatch(ClassifyResolve(e)) && !RetryableResolution(error)
    case Checked(_, _, Err(e)) => error == e && PermanentActionability(e) && !Excused(request, e)
    case _ => false
  }

  predicate AtFailureForGood(log: seq<Event>, from: nat, request: Request) {
    from < |log| && IsFailure(log[|log| - 1]) && !Waitable(request, log[|log| - 1])
    && (log[|log| - 1].Checked? ==> !Excused(request, log[|log| - 1].verdict.error))
  }

  /** Which resolve failures are waited out: those of a reference that may come back, if the error itself asks for a
  retry, and a time-out of the attempt, unless the error forbids one or something may have been delivered. */
  lemma ResolveIsWaitedOutIff(request: Request, error: Error)
    ensures Waitable(request, Resolved(Err(error))) <==>
              || (error.retryability == Retryable
                  && error.code in {StaleRef, AmbiguousTarget, TimedOut, AppUnresponsive})
              || (error.code == TimedOut && error.retryability == Unspecified
                  && error.disposition in {Unknown, NotDelivered})
  {
  }

  /** What becomes of a refused check: it goes on to dispatch if focusing or scrolling can cure it, it ends the wait if
  its code or the error itself rules out a retry, and it is waited out otherwise. Exactly one of the three. */
  lemma RefusalFate(request: Request, handle: Handle, error: Error)
    ensures var checks := if error.checks.Some? then error.checks.value else [];
            var curable := (request.needsFocus && Check(ReceivesEvents, Fail) in checks)
                           || (request.action.RequiresScrollIntoView() && Check(Visible, Fail) in checks);
            var final := error.retryability == NonRetryable
                         || error.code in {PermDenied, AppNotFound, ActionNotSupported, InvalidArgs, PolicyDenied,
                                           Internal, StaleRef, AmbiguousTarget};
            && (ReadyToDispatch([Resolved(Ok(handle)), Checked(handle, true, Err(error))], 0, request) <==> curable)
            && (AtFailureForGood([Checked(handle, true, Err(error))], 0, request) <==> !curable && final)
            && (Waitable(request, Checked(handle, true, Err(error))) <==> !curable && !final)
  {
  }

  /** How long to wait before the next attempt: less after a stability failure. */
  function PauseAfter(event: Event): nat {
    if event.Checked? && event.verdict.Err? && FailedCheck(event.verdict.error, Stability)
    then STABILITY_POLL_NS else POLL_INTERVAL_NS
  }

  /** One event of a wait that starts at `from`. Each attempt resolves and then checks what it resolved; a pause
  follows only a failure that is to be waited out, and lasts what that failure calls for, or until the deadline; and
  nothing but a pause leads to another attempt. So a check that passed, or failed curably, ends the wait. */
  ghost predicate WaitStep(log: seq<Event>, from: nat, i: nat, request: Request)
    requires from <= i < |log|
  {
    match log[i]
    case Resolved(_) => i == from || log[i - 1].Slept?
    case Checked(handle, strict, _) => strict && i > from && log[i - 1] == Resolved(Ok(handle))
    case Slept(start, duration) =>
      && i > from && Waitable(request, log[i - 1]) && 0 < duration <= PauseAfter(log[i - 1])
      && (duration == PauseAfter(log[i - 1]) || request.deadline <= start + duration)
    case _ => false
  }

  ghost predicate Wait(log: seq<Event>, from: nat, request: Request) {
    from <= |log| && forall i: nat :: from <= i < |log| ==> WaitStep(log, from, i, request)
  }

  lemma OneMoreWait(log: seq<Event>, event: Event, from: nat, request: Request)
    requires Wait(log, from, request) && WaitStep(log + [event], from, |log|, request)
    ensures Wait(log + [event], from, request)
  {
    forall i: nat | from <= i < |log + [event]|
      ensures WaitStep(log + [event], from, i, request)
    {
      if i < |log| {
        assert WaitStep(log, from, i, request);
      }
    }
  }

  /** A round goes on where the one before it paused. */
  lemma WaitsJoin(log: seq<Event>, longer: seq<Event>, from: nat, request: Request)
    requires log <= longer && Wait(log, from, request) && Wait(longer, |log|, request)
    requires |log| > from ==> log[|log| - 1].Slept?
    ensures Wait(longer, from, request)
  {
    forall i: nat | from <= i < |longer|
      ensures WaitStep(longer, from, i, request)
    {
      if i < |log| {
        assert WaitStep(log, from, i, request);
      } else {
        assert WaitStep(longer, |log|, i, request);
      }
    }
  }

  /** A failure after which the deadline may be found to have passed before the failure is recorded: a resolve
  that ran out of its slice, or a refusal that dispatch could have cured. */
  predicate MayGoUnrecorded(request: Request, event: Event) {
    || (event.Resolved? && event.outcome.Err? && IsAttemptTimeout(event.outcome.error))
    || (event.Checked? && event.verdict.Err? && Excused(request, event.verdict.error))
  }

  /** The recorded failures are those of the events, except perhaps the one that ended the wait. */
  ghost predicate Accounts(request: Request, recorded: seq<Event>, events: seq<Event>) {
    || recorded == FailuresOf(events)
    || (events != [] && MayGoUnrecorded(request, events[|events| - 1])
        && recorded == FailuresOf(events[..|events| - 1]))
  }

  lemma AccountsMore(request: Request, before: seq<Event>, recorded: seq<Event>, events: seq<Event>)
    requires Accounts(request, recorded, events)
    ensures Accounts(request, FailuresOf(before) + recorded, before + events)
  {
    FailuresAppend(before, events);
    if events != [] {
      FailuresAppend(before, events[..|events| - 1]);
      assert (before + events)[..|before + events| - 1] == before + events[..|events| - 1];
    }
  }

  /** How a wait ends. `recorded` are the failures that the deadline error summarizes. */
  datatype WaitEnd = ReadyNow | AtDeadline(recorded: seq<Event>) | ForGood

  /** Ready exactly if the last check allows dispatch and the deadline has not passed after it; for good exactly at a
  failure that retrying cannot help; and otherwise at the deadline. */
  ghost predicate EndsAs(
    end: WaitEnd, log: seq<Event>, from: nat, request: Request, r: Result<()>, now: Instant)
    requires from <= |log|
  {
    && (end.ReadyNow? <==> r.Ok?)
    && (end.ReadyNow? <==> ReadyToDispatch(log, from, request) && now < request.deadline)
    && (end.ForGood? <==> AtFailureForGood(log, from, request))
    && match end
       case ReadyNow => true
       case AtDeadline(recorded) =>
         r == Err(DeadlineError(recorded)) && request.deadline <= now && Accounts(request, recorded, log[from..])
       case ForGood => r.Err? && FailedForGood(log, from, request, r.error)
  }

  /** Never dispatches. A target that is ready ends the wait at once, and so does a failure that retrying cannot
  help; every other failure leads to another attempt until the deadline. A deadline failure blames the tool exactly
  when attempts failed and all of them by incomplete reads, where only the attempt that the deadline cut off may be
  left out. */
  method ExecutePollLoop(adapter: Adapter, request: Request) returns (r: Result<()>, ghost end: WaitEnd)
    modifies adapter
    ensures old(adapter.log) <= adapter.log && old(adapter.now) <= adapter.now
    ensures Wait(adapter.log, |old(adapter.log)|, request)
    ensures EndsAs(end, adapter.log, |old(adapter.log)|, request, r, adapter.now)
  {
    ghost var from := |adapter.log|;
    var state := new PollState();
    while true
      invariant old(adapter.log) <= adapter.log && old(adapter.now) <= adapter.now && fresh(state) && state.Valid()
      invariant Wait(adapter.log, from, request)
      invariant |adapter.log| > from ==> adapter.log[|adapter.log| - 1].Slept?
      invariant state.recorded == FailuresOf(adapter.log[from..])
      decreases if adapter.now < request.deadline then request.deadline - adapter.now + 1 else 0
    {
      ghost var log := adapter.log;
      var round := PollOnce(adapter, state, request);
      WaitsJoin(log, adapter.log, from, request);
      RoundAdds(round, log, adapter.log, from, request, state.recorded, adapter.now);
      match round {
        case Ready => return Ok(()), ReadyNow;
        case Final(error) => return Err(error), ForGood;
        case Expired(error) => return Err(error), AtDeadline(state.recorded);
        case Again =>
      }
    }
  }

  datatype Round = Ready | Again | Expired(error: Error) | Final(error: Error)

  /** What a round leaves behind: `before` are the failures recorded before its events. */
  ghost predicate RoundEnds(
    round: Round, log: seq<Event>, from: nat, request: Request, before: seq<Event>, recorded: seq<Event>, now: Instant)
    requires from <= |log|
  {
    match round
    case Ready => now < request.deadline && ReadyToDispatch(log, from, request)
    case Again =>
      recorded == before + FailuresOf(log[from..]) && from < |log| && log[|log| - 1].Slept?
    case Expired(error) =>
      && request.deadline <= now && error == DeadlineError(recorded) && !AtFailureForGood(log, from, request)
      && before <= recorded && Accounts(request, recorded[|before|..], log[from..])
    case Final(error) => AtFailureForGood(log, from, request) && FailedForGood(log, from, request, error)
  }

  /** The deadline found to have passed with nothing new to record. */
  lemma ExpiredNow(request: Request, log: seq<Event>, from: nat, recorded: seq<Event>, now: Instant)
    requires from <= |log| && request.deadline <= now && Accounts(request, [], log[from..])
    requires !AtFailureForGood(log, from, request)
    ensures RoundEnds(Expired(DeadlineError(recorded)), log, from, request, recorded, recorded, now)
  {
    assert recorded[|recorded|..] == [];
  }

  /** One more round on top of those whose failures are all recorded. */
  lemma RoundAdds(
    round: Round, log: seq<Event>, longer: seq<Event>, from: nat, request: Request, recorded: seq<Event>, now: Instant)
    requires from <= |log| && log <= longer
    requires |log| > from ==> log[|log| - 1].Slept?
    requires RoundEnds(round, longer, |log|, request, FailuresOf(log[from..]), recorded, now)
    ensures round.Again? ==> recorded == FailuresOf(longer[from..])
    ensures round.Expired? ==> Accounts(request, recorded, longer[from..])
    ensures AtFailureForGood(longer, from, request) <==> AtFailureForGood(longer, |log|, request)
    ensures round.Ready? ==> ReadyToDispatch(longer, from, request)
  {
    var before, events := FailuresOf(log[from..]), longer[|log|..];
    assert longer[from..] == log[from..] + events;
    if round.Expired? {
      assert before + recorded[|before|..] == recorded;
      AccountsMore(request, log[from..], recorded[|before|..], events);
    } else if round.Again? {
      FailuresAppend(log[from..], events);
    }
  }

  lemma AfterResolve(log: seq<Event>, from: nat, resolved: Result<Handle>, request: Request)
    requires |log| == from + 1 && log[from] == Resolved(resolved)
    ensures log[from..] == [Resolved(resolved)] && Wait(log, from, request)
    ensures FailuresOf(log[from..]) == if resolved.Err? then [Resolved(resolved)] else []
    ensures resolved.Err? ==> FailedLast(log, from)
  {
    assert log[from..from] == [];
    FailuresOfOne(Resolved(resolved));
  }

  /** One attempt: resolve, then check what was resolved. */
  method PollOnce(adapter: Adapter, state: PollState, request: Request) returns (round: Round)
    requires state.Valid()
    modifies adapter, state
    ensures old(adapter.log) <= adapter.log && old(adapter.now) <= adapter.now && state.Valid()
    ensures Wait(adapter.log, |old(adapter.log)|, request)
    ensures round.Again? ==> old(adapter.now) < request.deadline && old(adapter.now) < adapter.now
    ensures RoundEnds(round, adapter.log, |old(adapter.log)|, request, old(state.recorded), state.recorded, adapter.now)
  {
    ghost var from := |adapter.log|;
    state.resolveAttempts := state.resolveAttempts + 1;
    var time := adapter.ReadClock();
    if request.deadline <= time {
      var error := state.Timeout();
      assert adapter.log[from..] == [];
      ExpiredNow(request, adapter.log, from, state.recorded, adapter.now);
      return Expired(error);
    }
    round := ResolveAndCheck(adapter, state, request, from);
  }

  method ResolveAndCheck(adapter: Adapter, state: PollState, request: Request, ghost from: nat) returns (round: Round)
    requires state.Valid() && |adapter.log| == from
    modifies adapter, state
    ensures old(adapter.log) <= adapter.log && old(adapter.now) <= adapter.now && state.Valid()
    ensures Wait(adapter.log, from, request)
    ensures round.Again? ==> old(adapter.now) < request.deadline && old(adapter.now) < adapter.now
    ensures RoundEnds(round, adapter.log, from, request, old(state.recorded), state.recorded, adapter.now)
  {
    var resolved := adapter.ResolveElement();
    AfterResolve(adapter.log, from, resolved, request);
    var time := adapter.ReadClock();
    match resolved {
      case Err(error) => round := HandleResolveFailure(adapter, state, request, error, time, from);
      case Ok(handle) => round := HandleResolved(adapter, state, request, handle, time, from);
    }
  }

  method HandleResolved(
    adapter: Adapter, state: PollState, request: Request, handle: Handle, time: Instant, ghost from: nat)
    returns (round: Round)
    requires state.Valid() && |adapter.log| == from + 1 && FailuresOf(adapter.log[from..]) == []
    requires adapter.log[|adapter.log| - 1] == Resolved(Ok(handle)) && time <= adapter.now
    modifies adapter, state
    ensures old(adapter.log) <= adapter.log && old(adapter.now) <= adapter.now && state.Valid()
    ensures Wait(adapter.log, from, request)
    ensures round.Again? ==> old(adapter.now) < request.deadline && old(adapter.now) < adapter.now
    ensures RoundEnds(round, adapter.log, from, request, old(state.recorded), state.recorded, adapter.now)
  {
    if request.deadline <= time {
      var error := state.Timeout();
      ExpiredNow(request, adapter.log, from, state.recorded, adapter.now);
      return Expired(error);
    }
    round := CheckResolved(adapter, state, request, handle, from);
  }

  /** The events since `from` hold no failure but the last. */
  ghost predicate FailedLast(log: seq<Event>, from: nat) {
    from < |log| && IsFailure(log[|log| - 1]) && FailuresOf(log[from..|log| - 1]) == []
  }

  /** That failure, and a pause after it. */
  lemma FailedOnce(log: seq<Event>, from: nat, longer: seq<Event>)
    requires FailedLast(log, from)
    requires longer == log || (|longer| == |log| + 1 && log <= longer && longer[|log|].Slept?)
    ensures FailuresOf(longer[from..]) == [log[|log| - 1]]
  {
    var last := log[|log| - 1];
    assert log[from..] == log[from..|log| - 1] + [last];
    FailuresAppend(log[from..|log| - 1], [last]);
    FailuresOfOne(last);
    if longer != log {
      assert longer[from..] == log[from..] + [longer[|log|]];
      FailuresAppend(log[from..], [longer[|log|]]);
      FailuresOfOne(longer[|log|]);
    }
  }

  /** A resolve failure: the deadline, final, or recorded and waited out. */
  method HandleResolveFailure(
    adapter: Adapter, state: PollState, request: Request, error: Error, time: Instant, ghost from: nat)
    returns (round: Round)
    requires state.Valid() && |adapter.log| == from + 1 && FailedLast(adapter.log, from) && time <= adapter.now
    requires adapter.log[|adapter.log| - 1] == Resolved(Err(error)) && Wait(adapter.log, from, request)
    modifies adapter, state`onlyIncompleteReads, state`sawAmbiguity, state`recorded
    ensures old(adapter.log) <= adapter.log && old(adapter.now) <= adapter.now
    ensures Wait(adapter.log, from, request) && state.Valid() && !round.Ready?
    ensures round.Again? ==> old(adapter.now) < request.deadline && old(adapter.now) < adapter.now
    ensures RoundEnds(round, adapter.log, from, request, old(state.recorded), state.recorded, adapter.now)
  {
    var classified := ClassifyResolve(error);
    if request.deadline <= time && IsAttemptTimeout(error) {
      var timeout := state.Timeout();
      assert adapter.log[from..][..|adapter.log[from..]| - 1] == [];
      ExpiredNow(request, adapter.log, from, state.recorded, adapter.now);
      return Expired(timeout);
    }
    var marked := MarkPreDispatch(classified);
    if !RetryableResolution(marked) {
      return Final(marked);
    }
    ghost var before := state.recorded;
    state.RecordResolve(marked, adapter.log[|adapter.log| - 1]);
    round := PauseOrTimeOut(adapter, state, request, POLL_INTERVAL_NS, from, before);
  }

  /** The preflight of a handle that was just resolved. A check that passed, or failed curably, settles the wait. */
  method CheckResolved(adapter: Adapter, state: PollState, request: Request, handle: Handle, ghost from: nat)
    returns (round: Round)
    requires state.Valid() && |adapter.log| == from + 1 && FailuresOf(adapter.log[from..]) == []
    requires adapter.log[|adapter.log| - 1] == Resolved(Ok(handle))
    modifies adapter, state
    ensures old(adapter.log) <= adapter.log && old(adapter.now) <= adapter.now && state.Valid()
    ensures Wait(adapter.log, from, request)
    ensures round.Again? ==> old(adapter.now) < request.deadline && old(adapter.now) < adapter.now
    ensures RoundEnds(round, adapter.log, from, request, old(state.recorded), state.recorded, adapter.now)
  {
    ghost var log := adapter.log;
    state.preflightAttempts := state.preflightAttempts + 1;
    var checked := adapter.CheckActionability(handle, true);
    AfterCheck(request, log, adapter.log, from);
    if checked.Err? {
      var error := checked.error;
      var focusPending := request.needsFocus && FailedCheck(error, ReceivesEvents);
      if !focusPending && !ShouldScroll(request, error) {
        round := HandleRefusal(adapter, state, request, error, from);
        return;
      }
    }
    if request.deadline <= adapter.now {
      var error := state.Timeout();
      ExpiredNow(request, adapter.log, from, state.recorded, adapter.now);
      return Expired(error);
    }
    return Ready;
  }

  /** What a check adds: a refusal is the only failure so far; if it is curable, or none, nothing is recorded. */
  lemma AfterCheck(request: Request, log: seq<Event>, longer: seq<Event>, from: nat)
    requires |log| == from + 1 && log[from].Resolved? && log[from].outcome.Ok? && FailuresOf(log[from..]) == []
    requires |longer| == |log| + 1 && log <= longer && longer[|log|].Checked?
    requires longer[|log|].strict && longer[|log|].handle == log[from].outcome.value
    ensures Wait(longer, from, request)
    ensures longer[|log|].verdict.Err? ==> FailedLast(longer, from)
    ensures longer[|log|].verdict.Ok? || Excused(request, longer[|log|].verdict.error) ==>
              Accounts(request, [], longer[from..])
  {
    assert longer[from..|log|] == log[from..];
    NoneSoFar(request, log[from..], longer[|log|], longer[from..]);
  }

  lemma NoneSoFar(request: Request, events: seq<Event>, event: Event, more: seq<Event>)
    requires FailuresOf(events) == [] && event.Checked? && more == events + [event]
    ensures event.verdict.Ok? || Excused(request, event.verdict.error) ==> Accounts(request, [], more)
  {
    assert more[..|more| - 1] == events && more[|more| - 1] == event;
  }

  /** A refusal that dispatch cannot cure: final, or recorded and waited out. */
  method HandleRefusal(adapter: Adapter, state: PollState, request: Request, error: Error, ghost from: nat)
    returns (round: Round)
    requires state.Valid() && FailedLast(adapter.log, from) && Wait(adapter.log, from, request)
    requires adapter.log[|adapter.log| - 1].Checked? && adapter.log[|adapter.log| - 1].verdict == Err(error)
    requires !Excused(request, error)
    modifies adapter, state`onlyIncompleteReads, state`recorded
    ensures old(adapter.log) <= adapter.log && old(adapter.now) <= adapter.now
    ensures Wait(adapter.log, from, request) && state.Valid() && !round.Ready?
    ensures round.Again? ==> old(adapter.now) < request.deadline && old(adapter.now) < adapter.now
    ensures RoundEnds(round, adapter.log, from, request, old(state.recorded), state.recorded, adapter.now)
  {
    if PermanentActionability(error) {
      return Final(error);
    }
    ghost var before := state.recorded;
    state.RecordPreflight(error, adapter.log[|adapter.log| - 1]);
    var interval := if FailedCheck(error, Stability) then STABILITY_POLL_NS else POLL_INTERVAL_NS;
    round := PauseOrTimeOut(adapter, state, request, interval, from, before);
  }

  /** After a failure that has been recorded: a pause, or the deadline. */
  method PauseOrTimeOut(
    adapter: Adapter, state: PollState, request: Request, interval: nat, ghost from: nat, ghost before: seq<Event>)
    returns (round: Round)
    requires state.Valid() && FailedLast(adapter.log, from) && Wait(adapter.log, from, request)
    requires Waitable(request, adapter.log[|adapter.log| - 1])
    requires interval == PauseAfter(adapter.log[|adapter.log| - 1])
    requires state.recorded == before + [adapter.log[|adapter.log| - 1]]
    modifies adapter
    ensures old(adapter.log) <= adapter.log && old(adapter.now) <= adapter.now
    ensures Wait(adapter.log, from, request) && (round.Again? || round.Expired?)
    ensures round.Again? ==> old(adapter.now) < request.deadline && old(adapter.now) < adapter.now
    ensures RoundEnds(round, adapter.log, from, request, before, state.recorded, adapter.now)
  {
    ghost var log := adapter.log;
    var time := adapter.ReadClock();
    if request.deadline <= time {
      var error := state.Timeout();
      FailedOnce(log, from, log);
      assert state.recorded[|before|..] == [log[|log| - 1]];
      return Expired(error);
    }
    var remaining := request.deadline - time;
    var duration := if interval < remaining then interval else remaining;
    OneMoreWait(log, Slept(time, duration), from, request);
    adapter.Sleep(duration);
    FailedOnce(log, from, adapter.log);
    round := Again;
  }

  /** Nothing since `from` moved the target or acted on it. */
  ghost predicate Untouched(log: seq<Event>, from: nat, to: nat) {
    forall i :: from <= i < to && i < |log| ==> !IsExecution(log[i]) && !IsScroll(log[i])
  }

  function LateLease(): Error {
    Error(TimedOut, Unknown, Unspecified, None, false, false)
  }

  /** The wait of a request, if it waits at all, with its result. */
  ghost predicate Waited(log: seq<Event>, from: nat, request: Request, waited: Result<()>, now: Instant) {
    if request.waits then
      && Wait(log, from, request)
      && exists end: WaitEnd, at: Instant :: EndsAs(end, log, from, request, waited, at) && at <= now
    else |log| == from && waited.Ok?
  }

  /** Everything before dispatch, in order: the wait, the lease, the focus. Each is reached only if the one before it
  succeeded, and a lease that comes at or past the deadline is given up. */
  ghost predicate Prepared(
    log: seq<Event>, from: nat, leaseAt: nat, request: Request, waited: Result<()>, now: Instant, r: Result<()>)
  {
    && from <= leaseAt <= |log| && Waited(log[..leaseAt], from, request, waited, now)
    && if waited.Err? then |log| == leaseAt && r == waited
       else
         && leaseAt < |log| && log[leaseAt].LeaseAsked?
         && if log[leaseAt].granted.Err? then |log| == leaseAt + 1 && r == log[leaseAt].granted
            else if request.deadline <= log[leaseAt].at then |log| == leaseAt + 1 && r == Err(LateLease())
            else if !request.needsFocus then |log| == leaseAt + 1 && r.Ok?
            else |log| == leaseAt + 2 && log[leaseAt + 1].WindowFocused? && r == log[leaseAt + 1].focused
  }

  lemma PreparedUntouched(
    log: seq<Event>, from: nat, leaseAt: nat, request: Request, waited: Result<()>, now: Instant, r: Result<()>)
    requires Prepared(log, from, leaseAt, request, waited, now, r)
    ensures Untouched(log, from, |log|)
    ensures r.Ok? ==> leaseAt < |log| && log[leaseAt].LeaseAsked? && log[leaseAt].granted.Ok?
  {
    forall i | from <= i < |log|
      ensures !IsExecution(log[i]) && !IsScroll(log[i])
    {
      if i < leaseAt {
        assert log[..leaseAt][i] == log[i];
        assert WaitStep(log[..leaseAt], from, i, request);
      }
    }
  }

  /** Waiting, taking the lease and focusing the window: everything before dispatch. */
  method Prepare(adapter: Adapter, request: Request)
    returns (r: Result<()>, ghost leaseAt: nat, ghost waited: Result<()>)
    modifies adapter
    ensures old(adapter.log) <= adapter.log && old(adapter.now) <= adapter.now
    ensures Prepared(adapter.log, |old(adapter.log)|, leaseAt, request, waited, adapter.now, r)
    ensures Untouched(adapter.log, |old(adapter.log)|, |adapter.log|)
  {
    ghost var from := |adapter.log|;
    waited := Ok(());
    leaseAt := from;
    assert adapter.log[..from] == adapter.log;
    if request.waits {
      var ready, end := ExecutePollLoop(adapter, request);
      waited := ready;
      leaseAt := |adapter.log|;
      assert adapter.log[..leaseAt] == adapter.log;
      assert EndsAs(end, adapter.log, from, request, waited, adapter.now);
      if ready.Err? {
        PreparedUntouched(adapter.log, from, leaseAt, request, waited, adapter.now, ready);
        return ready, leaseAt, waited;
      }
    }
    r := LeaseAndFocus(adapter, request, from, waited);
    PreparedUntouched(adapter.log, from, leaseAt, request, waited, adapter.now, r);
  }

  method LeaseAndFocus(adapter: Adapter, request: Request, ghost from: nat, ghost waited: Result<()>)
    returns (r: Result<()>)
    requires from <= |adapter.log| && Waited(adapter.log, from, request, waited, adapter.now) && waited.Ok?
    modifies adapter
    ensures old(adapter.log) <= adapter.log && old(adapter.now) <= adapter.now
    ensures Prepared(adapter.log, from, |old(adapter.log)|, request, waited, adapter.now, r)
  {
    ghost var log := adapter.log;
    var lease, at := adapter.AcquireLease(request.deadline);
    assert adapter.log[..|log|] == log;
    if lease.Err? {
      return Err(lease.error);
    }
    if request.deadline <= at {
      return Err(LateLease());
    }
    if !request.needsFocus {
      return Ok(());
    }
    r := adapter.FocusWindow();
    assert adapter.log[..|log|] == log;
  }

  /** The whole action. Nothing is scrolled or executed before the lease is taken, and everything after
  that is one dispatch run. */
  method ExecuteWithAutoWait(adapter: Adapter, request: Request, instanceKnown: bool)
    returns (r: Result<ActionResult>, ghost dispatchedFrom: Option<nat>, ghost shape: Shape)
    modifies adapter
    ensures old(adapter.log) <= adapter.log && old(adapter.now) <= adapter.now
    ensures dispatchedFrom.None? ==>
              && r.Err? && Untouched(adapter.log, |old(adapter.log)|, |adapter.log|)
              && exists leaseAt, waited ::
                   Prepared(adapter.log, |old(adapter.log)|, leaseAt, request, waited, adapter.now, Err(r.error))
    ensures dispatchedFrom.Some? ==>
              && |old(adapter.log)| <= dispatchedFrom.value <= |adapter.log|
              && Untouched(adapter.log, |old(adapter.log)|, dispatchedFrom.value)
              && (exists leaseAt: nat, waited: Result<()>, now: Instant, ready: Result<()> ::
                    && Prepared(adapter.log[..dispatchedFrom.value], |old(adapter.log)|, leaseAt, request, waited, now,
                                ready)
                    && now <= adapter.now && ready.Ok?)
              && (shape.Refused? <==> !instanceKnown)
              && Fits(adapter.log, adapter.numericMatch, dispatchedFrom.value, shape, request, adapter.now, r)
  {
    var prepared, leaseAt, waited := Prepare(adapter, request);
    if prepared.Err? {
      return Err(prepared.error), None, Refused;
    }
    ghost var before, now := adapter.log, adapter.now;
    r, shape := DispatchResolved(adapter, request, instanceKnown);
    dispatchedFrom := Some(|before|);
    assert adapter.log[..|before|] == before;
    assert Prepared(before, |old(adapter.log)|, leaseAt, request, waited, now, prepared);
  }
}

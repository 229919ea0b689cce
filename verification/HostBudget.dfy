/** The absolute expiry of a forwarded command and the host's checks before dispatch. */
module HostBudget {
  import opened Common
  import opened Deadlines

  const WAIT_MARGIN_MS: nat := 5000

  /** The command's own time: `--ms` waits get a margin, everything else its timeout. */
  datatype Primary = PlainWait(ms: nat) | Timeout(ms: nat)

  function CheckedU64(x: nat): Option<nat> {
    if x <= U64_MAX then Some(x) else None
  }

  function BudgetMs(primary: Primary, postWaitMs: nat): Option<nat> {
    var base := if primary.PlainWait? then CheckedU64(primary.ms + WAIT_MARGIN_MS) else Some(primary.ms);
    if base.None? then None else CheckedU64(base.value + postWaitMs)
  }

  /** The client's absolute expiry on the monotonic clock, in nanoseconds. */
  function ExpiresAt(budgetMs: nat, now: nat): Option<nat> {
    if budgetMs > MAX_WAIT_TIMEOUT_MS || now + budgetMs * MS > INSTANT_MAX then None
    else if CheckedU64(budgetMs * MS).None? then None
    else CheckedU64(now + budgetMs * MS)
  }

  /** What is left of it; None at and after the expiry. */
  function RemainingAt(expires: nat, now: nat): Option<nat> {
    if now < expires then Some(expires - now) else None
  }

  /** Time spent queued is never refunded: of a budget taken at `sent`, exactly the part not yet elapsed is
  left at `now`, and nothing once it has all elapsed. */
  lemma QueueTimeIsNotRefunded(primary: Primary, postWaitMs: nat, budgetMs: nat, sent: nat, expires: nat, now: nat)
    requires BudgetMs(primary, postWaitMs) == Some(budgetMs) && ExpiresAt(budgetMs, sent) == Some(expires)
    requires sent <= now
    ensures RemainingAt(expires, now).Some? <==> now - sent < budgetMs * MS
    ensures RemainingAt(expires, now).Some? ==> RemainingAt(expires, now).value + (now - sent) == budgetMs * MS
    ensures budgetMs == (if primary.PlainWait? then primary.ms + WAIT_MARGIN_MS else primary.ms) + postWaitMs
  {
  }

  // ---------------------------------------------------------------- prepare

  /** The arguments as the host parses them: `session` is the selected namespace. */
  datatype Parsed = Parsed(session: Option<nat>, agentId: Option<nat>, hasCommand: bool)

  datatype Request = Request(
    identity: nat, absolute: bool, directory: nat, parsed: Option<Parsed>, agentId: Option<nat>, expires: nat)

  datatype Prepared = Prepared(agentId: Option<nat>, deadline: Deadline)

  datatype Refusal =
    | BadEnvelope | WrongIdentity | RelativeDirectory | BadArguments | OtherNamespace | NoCommand
    | Expired | TooLong | DirectoryFailed

  datatype Answer = Ready(prepared: Prepared) | Refused(refusal: Refusal)

  /** The first failing check, in the host's order; the last two depend on the clock and the file system. */
  function FirstRefusal(request: Option<Request>, identity: nat, session: Option<nat>): Option<Refusal> {
    if request.None? then Some(BadEnvelope)
    else
      var r := request.value;
      if r.identity != identity then Some(WrongIdentity)
      else if !r.absolute then Some(RelativeDirectory)
      else if r.parsed.None? then Some(BadArguments)
      else if r.parsed.value.session != session then Some(OtherNamespace)
      else if !r.parsed.value.hasCommand then Some(NoCommand)
      else None
  }

  /** Whether the check behind a refusal passes; the checks after `NoCommand` need the clock or the file system. */
  predicate Passes(refusal: Refusal, request: Option<Request>, identity: nat, session: Option<nat>) {
    match refusal
    case BadEnvelope => request.Some?
    case WrongIdentity => request.Some? && request.value.identity == identity
    case RelativeDirectory => request.Some? && request.value.absolute
    case BadArguments => request.Some? && request.value.parsed.Some?
    case OtherNamespace =>
      request.Some? && request.value.parsed.Some? && request.value.parsed.value.session == session
    case NoCommand => request.Some? && request.value.parsed.Some? && request.value.parsed.value.hasCommand
    case _ => true
  }

  function Rank(refusal: Refusal): nat {
    match refusal
    case BadEnvelope => 0
    case WrongIdentity => 1
    case RelativeDirectory => 2
    case BadArguments => 3
    case OtherNamespace => 4
    case NoCommand => 5
    case Expired => 6
    case TooLong => 7
    case DirectoryFailed => 8
  }

  /** A request is refused before the clock is read exactly if some check fails, and then for the failing check
  of lowest rank. */
  lemma RefusedForTheFirst(request: Option<Request>, identity: nat, session: Option<nat>)
    ensures var refusal := FirstRefusal(request, identity, session);
            && (refusal.None? <==> forall check: Refusal :: Passes(check, request, identity, session))
            && (refusal.Some? ==>
                  && !Passes(refusal.value, request, identity, session)
                  && forall check: Refusal ::
                       Rank(check) < Rank(refusal.value) ==> Passes(check, request, identity, session))
  {
    var refusal := FirstRefusal(request, identity, session);
    if refusal.None? {
      forall check: Refusal
        ensures Passes(check, request, identity, session)
      {
        match check
        case _ =>
      }
    } else {
      assert !Passes(refusal.value, request, identity, session);
    }
  }

  class HostProcess {
    var directory: nat
    const clock: ThreadDeadlines
    /** The attempts to change directory, and whether the system allowed them. */
    ghost var attempts: seq<(nat, bool)>

    constructor (directory: nat, clock: ThreadDeadlines)
      ensures this.directory == directory && this.clock == clock && attempts == []
    {
      this.directory, this.clock, attempts := directory, clock, [];
    }

    method EnterDirectory(target: nat) returns (ok: bool)
      modifies this
      ensures attempts == old(attempts) + [(target, ok)]
      ensures directory == if ok then target else old(directory)
    {
      ok := *;
      attempts := attempts + [(target, ok)];
      if ok {
        directory := target;
      }
    }

    /** All checks come before the one effect, changing directory, and an expired request never passes
    them. The deadline handed to the command overshoots the absolute expiry by less than one millisecond
    plus the clock advance between reading what is left and making the deadline. */
    method Prepare(request: Option<Request>, identity: nat, session: Option<nat>)
      returns (answer: Answer, ghost readAt: nat, ghost madeAt: nat)
      requires clock.Valid()
      modifies this, clock
      ensures clock.Valid() && clock.frames == old(clock.frames) && old(clock.now) <= clock.now
      ensures answer.Refused? ==> directory == old(directory)
      ensures answer.Ready? || answer == Refused(DirectoryFailed) <==>
                request.Some? && attempts == old(attempts) + [(request.value.directory, answer.Ready?)]
      ensures answer.Refused? && answer != Refused(DirectoryFailed) ==> attempts == old(attempts)
      ensures FirstRefusal(request, identity, session).Some? ==>
                answer == Refused(FirstRefusal(request, identity, session).value)
      ensures FirstRefusal(request, identity, session).None? && answer.Refused? ==>
                answer.refusal == Expired || answer.refusal == TooLong || answer.refusal == DirectoryFailed
      ensures FirstRefusal(request, identity, session).None? ==>
                && request.Some? && old(clock.now) <= readAt <= madeAt <= clock.now
                && (answer == Refused(Expired) <==> request.value.expires <= readAt)
                && (answer == Refused(TooLong) <==>
                      readAt < request.value.expires && !Representable(request.value.expires - readAt, madeAt))
      ensures answer.Ready? ==>
                && request.Some? && directory == request.value.directory
                && old(clock.now) <= readAt <= madeAt <= clock.now && readAt < request.value.expires
                && answer.prepared.deadline.expiresAt < request.value.expires + MS + (madeAt - readAt)
                && WithinScopes(answer.prepared.deadline, clock.frames)
                && (old(clock.inherited).None? ==> request.value.expires <= answer.prepared.deadline.expiresAt)
                && answer.prepared.agentId == ChosenAgent(request.value)
    {
      readAt, madeAt := clock.now, clock.now;
      var refusal := FirstRefusal(request, identity, session);
      if refusal.Some? {
        return Refused(refusal.value), readAt, madeAt;
      }
      var r := request.value;
      var agentId := if r.parsed.value.agentId.Some? then r.parsed.value.agentId else r.agentId;
      var now := clock.ReadClock();
      readAt, madeAt := now, now;
      var remaining := RemainingAt(r.expires, now);
      if remaining.None? {
        return Refused(Expired), readAt, madeAt;
      }
      var deadline := clock.FromDuration(remaining.value);
      madeAt := clock.now;
      if deadline.Err? {
        return Refused(TooLong), readAt, madeAt;
      }
      var entered := EnterDirectory(r.directory);
      if !entered {
        return Refused(DirectoryFailed), readAt, madeAt;
      }
      return Ready(Prepared(agentId, deadline.value)), readAt, madeAt;
    }
  }

  /** Whether what is left can be turned into a deadline at that time. */
  predicate Representable(remaining: nat, now: nat) {
    CeilMs(remaining) <= MAX_WAIT_TIMEOUT_MS && now + CeilMs(remaining) * MS <= INSTANT_MAX
  }

  /** The agent named in the arguments comes before the one in the envelope. */
  function ChosenAgent(request: Request): Option<nat> {
    if request.parsed.Some? && request.parsed.value.agentId.Some? then request.parsed.value.agentId else request.agentId
  }
}

/** The lease code of one thread, run against arbitrary interference by every other thread and process.

Each primitive performs exactly one step of the protocol; between primitives, `Interfere` lets any
number of steps of others happen and time pass. The contracts therefore say that the code is a run of
the protocol, whatever the rest of the system does. */
module LeaseCode {
  import opened Common
  import opened LeaseProtocol

  const U64_MAX: nat := 0xFFFF_FFFF_FFFF_FFFF
  const FLAG_RETRY_NS: nat := 1_000_000
  const LOCK_RETRY_NS: nat := 10_000_000

  datatype LeaseError = Timeout(contention: nat) | Io | NotTheLockFile

  datatype Result<+T> = Ok(value: T) | Err(error: LeaseError)

  datatype TryOutcome = Acquired | WouldBlock | Failed

  datatype Lock = ProcessFlag | FileLock

  datatype Call = Directory | OpenLock | Duplicate | Seal | Metadata | CompareFiles

  /** What the lease code did and was answered: attempts on the two locks, pauses, and the other calls. */
  datatype Event =
    | Tried(lock: Lock, outcome: TryOutcome, at: nat)
    | Paused(start: nat, duration: nat)
    | Called(call: Call, ok: bool)

  datatype Lease = Lease(deadline: nat, contention: nat)

  function SaturatingAdd(x: nat, y: nat): (r: nat)
    ensures r <= U64_MAX
    ensures r == x + y || (x + y > U64_MAX && r == U64_MAX)
  {
    if x + y > U64_MAX then U64_MAX else x + y
  }

  /** A count as 64 bits hold it. */
  function Counted(n: nat): nat {
    if n > U64_MAX then U64_MAX else n
  }

  /** Saturating addition loses nothing against counting first: the sum of two counts is the count of the sum,
  however the lost attempts are split. */
  lemma CountsAdd(x: nat, y: nat)
    ensures SaturatingAdd(Counted(x), Counted(y)) == Counted(x + y)
  {
  }

  // ---------------------------------------------------------------- what a run of the code looks like

  function RetryAfter(lock: Lock): nat {
    if lock.ProcessFlag? then FLAG_RETRY_NS else LOCK_RETRY_NS
  }

  /** An attempt on `lock` that was lost and is not the last: a pause follows. */
  predicate IsLost(event: Event, lock: Lock) {
    event.Tried? && event.lock == lock && event.outcome.WouldBlock?
  }

  /** One event of a retry loop, after `before` if it is not the first. Only a lost attempt is retried, only after
  a pause, and the pause lasts one interval or until the deadline. The file lock is tried before the deadline only. */
  predicate Retries(event: Event, before: Option<Event>, lock: Lock, deadline: nat) {
    match event
    case Tried(l, _, at) => l == lock && (before.Some? ==> before.value.Paused?) && (lock.FileLock? ==> at < deadline)
    case Paused(start, duration) =>
      && before.Some? && IsLost(before.value, lock) && 0 < duration <= RetryAfter(lock)
      && (duration == RetryAfter(lock) || deadline <= start + duration)
    case Called(_, _) => false
  }

  ghost predicate RetriesAt(trace: seq<Event>, from: nat, i: nat, lock: Lock, deadline: nat)
    requires from <= i < |trace|
  {
    Retries(trace[i], if i == from then None else Some(trace[i - 1]), lock, deadline)
  }

  /** The events of a trace since `from` are those of one retry loop. */
  ghost predicate RetryLoop(trace: seq<Event>, from: nat, lock: Lock, deadline: nat) {
    from <= |trace| && forall i: nat :: from <= i < |trace| ==> RetriesAt(trace, from, i, lock, deadline)
  }

  predicate IsFault(event: Event) {
    match event
    case Tried(_, outcome, _) => outcome.Failed?
    case Paused(_, _) => false
    case Called(_, ok) => !ok
  }

  /** The last event since `from` says that the lock was obtained. */
  predicate EndsAcquired(trace: seq<Event>, from: nat, lock: Lock) {
    from < |trace| && var last := trace[|trace| - 1]; last.Tried? && last.lock == lock && last.outcome.Acquired?
  }

  /** The last event since `from` is a failed call. */
  predicate EndsInFault(trace: seq<Event>, from: nat) {
    from < |trace| && IsFault(trace[|trace| - 1])
  }

  predicate EndsUnrecognised(trace: seq<Event>, from: nat) {
    from < |trace| && trace[|trace| - 1] == Called(CompareFiles, false)
  }

  /** The calls between the two locks, in order; an adoption makes five of them, an acquisition by path two. */
  function Expected(adopting: bool, i: nat): Option<Call> {
    if i == 0 then Some(Directory)
    else if !adopting then (if i == 1 then Some(OpenLock) else None)
    else match i
      case 1 => Some(Duplicate)
      case 2 => Some(Seal)
      case 3 => Some(Metadata)
      case 4 => Some(CompareFiles)
      case _ => None
  }

  const ACQUIRE_CALLS: nat := 2
  const ADOPT_CALLS: nat := 5

  ghost predicate CallAt(trace: seq<Event>, mid: nat, i: nat, adopting: bool)
    requires mid <= i < |trace|
  {
    && trace[i].Called? && Expected(adopting, i - mid) == Some(trace[i].call)
    && (i > mid ==> WasOk(trace[i - 1]))
  }

  /** From `mid` on, the calls come in their order, each only after the one before it was answered well. */
  ghost predicate CallsInOrder(trace: seq<Event>, mid: nat, adopting: bool) {
    mid <= |trace| && forall i: nat :: mid <= i < |trace| ==> CallAt(trace, mid, i, adopting)
  }

  lemma OneMoreCall(trace: seq<Event>, event: Event, mid: nat, adopting: bool)
    requires CallsInOrder(trace, mid, adopting) && event.Called?
    requires Expected(adopting, |trace| - mid) == Some(event.call)
    requires |trace| > mid ==> WasOk(trace[|trace| - 1])
    ensures CallsInOrder(trace + [event], mid, adopting)
  {
    var longer := trace + [event];
    forall i: nat | mid <= i < |longer|
      ensures CallAt(longer, mid, i, adopting)
    {
      if i < |trace| {
        assert CallAt(trace, mid, i, adopting);
      }
    }
  }

  /** All of one acquisition: the flag up to `mid`, then the calls up to `called`, then the file lock. */
  ghost predicate Acquisition(trace: seq<Event>, from: nat, mid: nat, called: nat, adopting: bool, deadline: nat) {
    && from <= mid <= called <= |trace| && RetryLoop(trace[..mid], from, ProcessFlag, deadline)
    && (mid < |trace| ==> EndsAcquired(trace[..mid], from, ProcessFlag))
    && CallsInOrder(trace[..called], mid, adopting)
    && (called < |trace| ==>
          && called == mid + (if adopting then ADOPT_CALLS else ACQUIRE_CALLS) && WasOk(trace[called - 1]))
    && RetryLoop(trace, called, FileLock, deadline)
  }

  predicate WasOk(event: Event) {
    event.Called? && event.ok
  }

  /** What the caller is told, from the last event and the clock: Io exactly for a failed call, the refusal by
  identity exactly for another file, a lease exactly for the file lock obtained before the deadline. */
  ghost predicate Answers<T>(r: Result<T>, trace: seq<Event>, from: nat, now: nat, deadline: nat) {
    && (r.Ok? <==> EndsAcquired(trace, from, FileLock) && now < deadline)
    && (r == Err(Io) <==> EndsInFault(trace, from) && !EndsUnrecognised(trace, from))
    && (r == Err(NotTheLockFile) <==> EndsUnrecognised(trace, from))
    && (r.Err? && r.error.Timeout? ==> deadline <= now)
  }

  lemma LongerLoop(trace: seq<Event>, event: Event, from: nat, lock: Lock, deadline: nat)
    requires RetryLoop(trace, from, lock, deadline)
    requires Retries(event, if |trace| == from then None else Some(trace[|trace| - 1]), lock, deadline)
    ensures RetryLoop(trace + [event], from, lock, deadline)
  {
    var longer := trace + [event];
    forall i: nat | from <= i < |longer|
      ensures RetriesAt(longer, from, i, lock, deadline)
    {
      if i < |trace| {
        assert RetriesAt(trace, from, i, lock, deadline);
      }
    }
  }

  /** An acquisition put together: the flag, the calls, and the file lock if every call was answered well. */
  lemma Compose(flag: seq<Event>, called: seq<Event>, trace: seq<Event>, from: nat, adopting: bool, deadline: nat)
    requires RetryLoop(flag, from, ProcessFlag, deadline) && EndsAcquired(flag, from, ProcessFlag)
    requires flag < called <= trace && CallsInOrder(called, |flag|, adopting)
    requires called < trace ==>
               |called| == |flag| + (if adopting then ADOPT_CALLS else ACQUIRE_CALLS) && WasOk(called[|called| - 1])
    requires RetryLoop(trace, |called|, FileLock, deadline)
    ensures Acquisition(trace, from, |flag|, |called|, adopting, deadline)
  {
    assert trace[..|flag|] == flag && trace[..|called|] == called;
  }

  /** Whether a step is taken by thread `t` or ends its process. */
  predicate Concerns(s: State, step: Step, t: Tid)
    requires t in s.threads
  {
    match step
    case ThreadStep(u, act) => u == t && !act.DuplicateInheritable?
    case ProcessStep(p, deed) => deed.Crash? && p == s.threads[t].pid
  }

  // ---------------------------------------------------------------- interference

  /** The description that a thread's own descriptor is on. */
  function DescriptionOf(s: State, t: Tid): Option<Description> {
    if t in s.threads && OwnsFd(s.threads[t].phase) && LeaseKey(s, t) in s.descriptors
    then Some(s.descriptors[LeaseKey(s, t)].description) else None
  }

  predicate HoldsLock(s: State, t: Tid) {
    DescriptionOf(s, t).Some? && s.holder == DescriptionOf(s, t)
  }

  predicate OnLockFile(s: State, t: Tid) {
    DescriptionOf(s, t).Some? && DescriptionOf(s, t).value in s.canonical
  }

  /** What no step of others can change for thread `t`: its phase and the description it holds. */
  ghost predicate Undisturbed(s: State, s': State, t: Tid) {
    && t in s.threads && t in s'.threads && s'.threads[t] == s.threads[t]
    && (OwnsFd(s.threads[t].phase) ==> DescriptionOf(s, t).Some? && DescriptionOf(s', t) == DescriptionOf(s, t))
    && (forall d :: d in s.creator ==> d in s'.creator && (d in s.canonical <==> d in s'.canonical))
  }

  lemma LockFileStays(s: State, s': State, t: Tid)
    requires Reachable(s) && Undisturbed(s, s', t)
    ensures OnLockFile(s', t) <==> OnLockFile(s, t)
  {
    ReachableInv(s);
  }

  ghost predicate OthersNext(s: State, s': State, t: Tid) {
    t in s.threads && exists step :: Enabled(s, step) && !Concerns(s, step, t) && s' == Apply(s, step)
  }

  ghost predicate OthersRun(run: seq<State>, t: Tid) {
    && |run| > 0
    && forall i :: 0 < i < |run| ==> OthersNext(run[i - 1], run[i], t)
  }

  lemma OtherThreadStep(s: State, u: Tid, act: ThreadAction, t: Tid)
    requires Inv(s) && t in s.threads && EnabledThread(s, u, act) && !Concerns(s, ThreadStep(u, act), t)
    ensures Undisturbed(s, ApplyThread(s, u, act), t)
  {
    if act.CloseFile? {
      CloseKeepsOthers(s, u);
    }
  }

  lemma OtherProcessStep(s: State, p: Pid, deed: ProcessAction, t: Tid)
    requires Inv(s) && t in s.threads && EnabledProcess(s, p, deed) && !Concerns(s, ProcessStep(p, deed), t)
    ensures Undisturbed(s, ApplyProcess(s, p, deed), t)
  {
    if deed.CloseOther? && OwnsFd(s.threads[t].phase) {
      assert OwnedByThread(s, LeaseKey(s, t));
    }
  }

  lemma OthersStep(s: State, step: Step, t: Tid)
    requires Reachable(s) && t in s.threads && Enabled(s, step) && !Concerns(s, step, t)
    ensures Undisturbed(s, Apply(s, step), t)
  {
    ReachableInv(s);
    match step
    case ThreadStep(u, act) => OtherThreadStep(s, u, act, t);
    case ProcessStep(p, deed) => OtherProcessStep(s, p, deed, t);
  }

  lemma UndisturbedTwice(s: State, s': State, s'': State, t: Tid)
    requires Undisturbed(s, s', t) && Undisturbed(s', s'', t)
    ensures Undisturbed(s, s'', t)
  {
  }

  lemma UndisturbedByNothing(s: State, t: Tid)
    requires Reachable(s) && t in s.threads
    ensures Undisturbed(s, s, t)
  {
    ReachableInv(s);
  }

  lemma OthersOnce(s: State, s': State, t: Tid)
    requires Reachable(s) && OthersNext(s, s', t)
    ensures Reachable(s') && Undisturbed(s, s', t)
  {
    var step :| Enabled(s, step) && !Concerns(s, step, t) && s' == Apply(s, step);
    OthersStep(s, step, t);
    ReachableStep(s, step);
  }

  /** The rely condition used by `Machine.Interfere` is sound: it holds of every run of the others. */
  lemma {:induction false} OthersDoNotDisturb(run: seq<State>, t: Tid)
    requires OthersRun(run, t) && Reachable(run[0]) && t in run[0].threads
    ensures Reachable(run[|run| - 1]) && Undisturbed(run[0], run[|run| - 1], t)
    decreases |run|
  {
    if |run| == 1 {
      UndisturbedByNothing(run[0], t);
    } else {
      OthersDoNotDisturb(run[..|run| - 1], t);
      OthersOnce(run[|run| - 2], run[|run| - 1], t);
      UndisturbedTwice(run[0], run[|run| - 2], run[|run| - 1], t);
    }
  }

  class Machine {
    var state: State
    var now: nat
    /** How many attempts on the flag or on the file lock were lost. */
    ghost var lost: nat
    ghost var trace: seq<Event>

    ghost predicate Runs(t: Tid)
      reads this`state
    {
      Reachable(state) && t in state.threads
    }

    /** Any number of steps of the other threads and processes; the clock never goes back. */
    method Interfere(t: Tid)
      requires Runs(t)
      modifies this`state, this`now
      ensures Runs(t) && Undisturbed(old(state), state, t) && old(now) <= now
    {
      ReachableInv(state);
    }

    /** One atomic step of this thread. */
    method Perform(step: Step)
      requires Reachable(state) && Enabled(state, step)
      modifies this`state
      ensures state == Apply(old(state), step) && Reachable(state)
    {
      ReachableStep(state, step);
      state := Apply(state, step);
    }

    method Sleep(t: Tid, duration: nat)
      requires Runs(t)
      modifies this`state, this`now, this`trace
      ensures Runs(t) && Undisturbed(old(state), state, t) && old(now) + duration <= now
      ensures trace == old(trace) + [Paused(old(now), duration)]
    {
      trace := trace + [Paused(now, duration)];
      now := now + duration;
      Interfere(t);
    }

    /** This call is the next one, and every one before it was answered well. */
    ghost predicate MayCall(mid: nat, adopting: bool, call: Call)
      reads this`trace
    {
      && CallsInOrder(trace, mid, adopting) && Expected(adopting, |trace| - mid) == Some(call)
      && (|trace| > mid ==> WasOk(trace[|trace| - 1]))
    }

    ghost predicate Answered(before: seq<Event>, mid: nat, adopting: bool, call: Call, ok: bool)
      reads this`trace
    {
      trace == before + [Called(call, ok)] && CallsInOrder(trace, mid, adopting)
    }

    method Note(call: Call, ok: bool, ghost mid: nat, ghost adopting: bool)
      requires MayCall(mid, adopting, call)
      modifies this`trace
      ensures Answered(old(trace), mid, adopting, call, ok)
    {
      OneMoreCall(trace, Called(call, ok), mid, adopting);
      trace := trace + [Called(call, ok)];
    }

    /** After a lost attempt: the deadline, or a pause of one interval, cut off at the deadline. */
    method WaitAgain(t: Tid, lock: Lock, deadline: nat, ghost from: nat) returns (expired: bool)
      requires Runs(t) && RetryLoop(trace, from, lock, deadline)
      requires from < |trace| && IsLost(trace[|trace| - 1], lock)
      modifies this`state, this`now, this`trace
      ensures Runs(t) && Undisturbed(old(state), state, t)
      ensures if expired then trace == old(trace) && deadline <= now
              else old(trace) < trace && RetryLoop(trace, from, lock, deadline) && trace[|trace| - 1].Paused?
                   && old(now) < now && old(now) < deadline
    {
      Interfere(t);
      if deadline <= now {
        return true;
      }
      var remaining := deadline - now;
      var duration := if remaining < RetryAfter(lock) then remaining else RetryAfter(lock);
      LongerLoop(trace, Paused(now, duration), from, lock, deadline);
      Sleep(t, duration);
      expired := false;
    }

    /** Any other call that the lease code depends on. */
    method Ask(call: Call, ghost mid: nat, ghost adopting: bool) returns (ok: bool)
      requires MayCall(mid, adopting, call)
      modifies this`trace
      ensures Answered(old(trace), mid, adopting, call, ok)
    {
      ok := *;
      Note(call, ok, mid, adopting);
    }

    /** One compare-and-swap on the process flag. */
    method CompareExchange(t: Tid) returns (exchanged: bool)
      requires Runs(t) && state.threads[t].phase.Idle?
      modifies this`state, this`lost, this`trace
      ensures Runs(t) && state.threads[t].pid == old(state.threads[t].pid)
      ensures if exchanged then state.threads[t].phase.Flagged? && lost == old(lost)
              else state == old(state) && state.threads[t].pid in state.flagged && lost == old(lost) + 1
      ensures trace == old(trace) + [Tried(ProcessFlag, if exchanged then Acquired else WouldBlock, now)]
    {
      exchanged := Enabled(state, ThreadStep(t, TakeFlag));
      if exchanged {
        Perform(ThreadStep(t, TakeFlag));
      } else {
        lost := lost + 1;
      }
      trace := trace + [Tried(ProcessFlag, if exchanged then Acquired else WouldBlock, now)];
    }

    /** The compare-and-swap loop on the process flag: it gives up only at the deadline, and otherwise tries again
    until the flag is taken. A failure leaves this thread outside the lease code. Either way the count is that of
    the lost attempts. */
    method AcquireFlag(t: Tid, deadline: nat) returns (r: Result<nat>)
      requires Runs(t) && state.threads[t].phase.Idle?
      modifies this
      ensures Runs(t) && state.threads[t].pid == old(state.threads[t].pid) && old(lost) <= lost
      ensures old(trace) <= trace && RetryLoop(trace, |old(trace)|, ProcessFlag, deadline)
      ensures r.Ok? <==> EndsAcquired(trace, |old(trace)|, ProcessFlag) && now < deadline
      ensures r.Ok? ==> state.threads[t].phase.Flagged? && r.value == Counted(lost - old(lost))
      ensures r.Err? ==> && state.threads[t].phase.Idle? && deadline <= now && !EndsInFault(trace, |old(trace)|)
                         && r.error == Timeout(Counted(lost - old(lost))) && |trace| > |old(trace)|
                         && !EndsAcquired(trace, |old(trace)|, FileLock)
    {
      var contention: nat := 0;
      while true
        invariant Runs(t) && state.threads[t].phase.Idle? && state.threads[t].pid == old(state.threads[t].pid)
        invariant old(lost) <= lost && contention == Counted(lost - old(lost))
        invariant old(trace) <= trace && RetryLoop(trace, |old(trace)|, ProcessFlag, deadline)
        invariant |trace| > |old(trace)| ==> trace[|trace| - 1].Paused?
        decreases if now < deadline then deadline - now + 1 else 0
      {
        ghost var before := trace;
        var exchanged := CompareExchange(t);
        LongerLoop(before, trace[|before|], |old(trace)|, ProcessFlag, deadline);
        if exchanged {
          Interfere(t);
          if deadline <= now {
            Perform(ThreadStep(t, DropFlag));
            return Err(Timeout(contention));
          }
          return Ok(contention);
        }
        contention := SaturatingAdd(contention, 1);
        var expired := WaitAgain(t, ProcessFlag, deadline, |old(trace)|);
        if expired {
          return Err(Timeout(contention));
        }
      }
    }

    /** Dropping the file: its descriptor is closed, and this thread still owns the flag. */
    method DropFile(t: Tid)
      requires Runs(t) && OwnsFd(state.threads[t].phase)
      modifies this`state
      ensures Runs(t) && state.threads[t] == Thread(old(state.threads[t].pid), Flagged)
      ensures old(LeaseKey(state, t)) !in state.descriptors
    {
      ReachableInv(state);
      Perform(ThreadStep(t, CloseFile));
    }

    /** One attempt to lock the open file. */
    method TryLockFile(t: Tid, ghost deadline: nat, ghost from: nat) returns (outcome: TryOutcome)
      requires Runs(t) && state.threads[t].phase.Opened? && DescriptionOf(state, t).Some?
      requires RetryLoop(trace, from, FileLock, deadline) && now < deadline
      requires |trace| > from ==> trace[|trace| - 1].Paused?
      modifies this`state, this`lost, this`trace
      ensures Runs(t) && lost == old(lost) + (if outcome.WouldBlock? then 1 else 0)
      ensures trace == old(trace) + [Tried(FileLock, outcome, now)] && RetryLoop(trace, from, FileLock, deadline)
      ensures !outcome.Acquired? ==> state == old(state)
      ensures outcome.WouldBlock? ==>
                state.holder.Some? && state.holder != DescriptionOf(state, t)
      ensures outcome.Acquired? ==>
                && state.threads[t] == Thread(old(state.threads[t].pid), Locked(old(state.threads[t].phase.fd)))
                && DescriptionOf(state, t) == DescriptionOf(old(state), t)
    {
      var failed: bool := *;
      outcome := if failed then Failed else if Enabled(state, ThreadStep(t, TryLock)) then Acquired else WouldBlock;
      LongerLoop(trace, Tried(FileLock, outcome, now), from, FileLock, deadline);
      trace := trace + [Tried(FileLock, outcome, now)];
      match outcome {
        case Failed =>
        case Acquired => Perform(ThreadStep(t, TryLock));
        case WouldBlock => lost := lost + 1;
      }
    }

    /** The lock loop on an open lock file. A lost attempt leads only to another one or to a time-out at the
    deadline, and Io only to a failed lock call. Every failure has already dropped the file. */
    method LockFile(t: Tid, deadline: nat) returns (r: Result<nat>)
      requires Runs(t) && state.threads[t].phase.Opened?
      modifies this
      ensures Runs(t) && state.threads[t].pid == old(state.threads[t].pid) && old(lost) <= lost
      ensures old(trace) <= trace && RetryLoop(trace, |old(trace)|, FileLock, deadline)
      ensures Answers(r, trace, |old(trace)|, now, deadline)
      ensures r.Ok? ==> && state.threads[t].phase == Locked(old(state.threads[t].phase.fd))
                        && r.value == Counted(lost - old(lost))
      ensures r.Ok? ==> DescriptionOf(state, t).Some? && DescriptionOf(state, t) == DescriptionOf(old(state), t)
      ensures r.Err? ==> && state.threads[t].phase.Flagged?
                         && (r.error.Timeout? ==> r.error == Timeout(Counted(lost - old(lost))))
    {
      UndisturbedByNothing(state, t);
      var contention: nat := 0;
      while true
        invariant Runs(t) && Undisturbed(old(state), state, t)
        invariant old(lost) <= lost && contention == Counted(lost - old(lost))
        invariant old(trace) <= trace && RetryLoop(trace, |old(trace)|, FileLock, deadline)
        invariant |trace| > |old(trace)| ==> trace[|trace| - 1].Paused?
        decreases if now < deadline then deadline - now + 1 else 0
      {
        if deadline <= now {
          break;
        }
        var outcome := TryLockFile(t, deadline, |old(trace)|);
        if !outcome.WouldBlock? {
          r := Conclude(t, deadline, contention, outcome, |old(trace)|);
          return;
        }
        contention := SaturatingAdd(contention, 1);
        var expired := WaitAgain(t, FileLock, deadline, |old(trace)|);
        if expired {
          break;
        }
      }
      DropFile(t);
      return Err(Timeout(contention));
    }

    /** After an attempt that was not lost: a failed call, or the lock, which counts only before the deadline. */
    method Conclude(t: Tid, deadline: nat, contention: nat, outcome: TryOutcome, ghost from: nat)
      returns (r: Result<nat>)
      requires Runs(t) && !outcome.WouldBlock? && OwnsFd(state.threads[t].phase)
      requires from < |trace| && trace[|trace| - 1].Tried? && trace[|trace| - 1].lock.FileLock?
      requires trace[|trace| - 1].outcome == outcome
      requires outcome.Acquired? ==> state.threads[t].phase.Locked?
      modifies this`state, this`now
      ensures Runs(t) && Answers(r, trace, from, now, deadline)
      ensures r.Ok? ==> r.value == contention && Undisturbed(old(state), state, t)
      ensures r.Err? ==> && state.threads[t] == Thread(old(state.threads[t].pid), Flagged)
                         && (r.error.Timeout? ==> r.error == Timeout(contention))
    {
      if outcome.Failed? {
        DropFile(t);
        return Err(Io);
      }
      Interfere(t);
      if deadline <= now {
        DropFile(t);
        return Err(Timeout(contention));
      }
      return Ok(contention);
    }

    /** Taking a lease by path: flag, directory, file, lock. It ends with a live lease before its deadline, or with
    this thread holding neither lock, for the reason that the last event gives. */
    method AcquireLease(t: Tid, deadline: nat) returns (r: Result<Lease>, ghost mid: nat, ghost called: nat)
      requires Runs(t) && state.threads[t].phase.Idle?
      modifies this
      ensures Runs(t) && old(trace) <= trace && old(lost) <= lost
      ensures Acquisition(trace, |old(trace)|, mid, called, false, deadline)
      ensures Answers(r, trace, |old(trace)|, now, deadline)
      ensures r.Ok? ==> && state.threads[t].phase.Live? && r.value.deadline == deadline
                        && r.value.contention == Counted(lost - old(lost))
                        && HoldsLock(state, t)
      ensures r.Err? ==> state.threads[t].phase.Idle?
    {
      var flag := AcquireFlag(t, deadline);
      mid, called := |trace|, |trace|;
      assert trace[..mid] == trace;
      if flag.Err? {
        return Err(flag.error), mid, called;
      }
      ghost var flagged := trace;
      Interfere(t);
      var ready := OpenByPath(t, mid);
      ghost var answered := trace;
      called := |trace|;
      if ready {
        r := LockThenPublish(t, deadline, flag.value, lost - old(lost));
      } else {
        Unlock(t);
        r := Err(Io);
      }
      Compose(flagged, answered, trace, |old(trace)|, false, deadline);
    }

    method OpenByPath(t: Tid, ghost mid: nat) returns (ok: bool)
      requires Runs(t) && state.threads[t].phase.Flagged? && mid == |trace|
      modifies this`state, this`now, this`trace
      ensures Runs(t) && old(now) <= now && old(trace) < trace && CallsInOrder(trace, mid, false)
      ensures if ok then |trace| == mid + ACQUIRE_CALLS && WasOk(trace[|trace| - 1])
              else EndsInFault(trace, mid) && !EndsUnrecognised(trace, mid)
      ensures if ok then state.threads[t].phase.Opened? else state.threads[t].phase.Flagged?
    {
      ok := Ask(Directory, mid, false);
      if ok {
        ok := TryOpen(t, mid);
      }
      Interfere(t);
    }

    /** Opening the canonical lock file: a new description, or a failed call. */
    method TryOpen(t: Tid, ghost mid: nat) returns (ok: bool)
      requires Runs(t) && state.threads[t].phase.Flagged? && MayCall(mid, false, OpenLock)
      modifies this`state, this`trace
      ensures Runs(t) && Answered(old(trace), mid, false, OpenLock, ok)
      ensures if ok then state.threads[t].phase.Opened? else state == old(state)
    {
      var fd: Fd := *;
      var description: Description := *;
      ok := Enabled(state, ThreadStep(t, OpenLockFile(fd, description)));
      Note(OpenLock, ok, mid, false);
      if ok {
        Perform(ThreadStep(t, OpenLockFile(fd, description)));
      }
    }

    method LockThenPublish(t: Tid, deadline: nat, flagContention: nat, ghost flagLost: nat) returns (r: Result<Lease>)
      requires Runs(t) && state.threads[t].phase.Opened? && flagContention == Counted(flagLost)
      modifies this
      ensures Runs(t) && old(lost) <= lost
      ensures old(trace) <= trace && RetryLoop(trace, |old(trace)|, FileLock, deadline)
      ensures Answers(r, trace, |old(trace)|, now, deadline)
      ensures r.Ok? ==> && state.threads[t].phase == Live(old(state.threads[t].phase.fd))
                        && r.value.deadline == deadline
                        && r.value.contention == Counted(lost - old(lost) + flagLost)
                        && HoldsLock(state, t) && DescriptionOf(state, t) == DescriptionOf(old(state), t)
      ensures r.Err? ==> state.threads[t].phase.Idle?
    {
      ReachableInv(state);
      var lock := LockFile(t, deadline);
      if lock.Err? {
        Unlock(t);
        return Err(lock.error);
      }
      CountsAdd(lost - old(lost), flagLost);
      Perform(ThreadStep(t, Publish));
      ReachableInv(state);
      return Ok(Lease(deadline, SaturatingAdd(lock.value, flagContention)));
    }

    /** Giving the flag back. */
    method Unlock(t: Tid)
      requires Runs(t) && state.threads[t].phase.Flagged?
      modifies this`state, this`now
      ensures Runs(t) && state.threads[t].phase.Idle? && old(now) <= now
    {
      Interfere(t);
      Perform(ThreadStep(t, DropFlag));
    }

    /** Adopting an inherited descriptor: the flag, a private close-on-exec duplicate, the same-file
    check, then the lock. A descriptor of any other file is refused without touching its lock. */
    method AdoptLease(t: Tid, raw: Fd, deadline: nat) returns (r: Result<Lease>, ghost mid: nat, ghost called: nat)
      requires Runs(t) && state.threads[t].phase.Idle?
      modifies this
      ensures Runs(t) && old(trace) <= trace && old(lost) <= lost
      ensures Acquisition(trace, |old(trace)|, mid, called, true, deadline)
      ensures Answers(r, trace, |old(trace)|, now, deadline)
      ensures r.Ok? ==> && state.threads[t].phase.Live? && r.value.deadline == deadline
                        && r.value.contention == Counted(lost - old(lost))
                        && HoldsLock(state, t) && OnLockFile(state, t)
      ensures r.Err? ==> state.threads[t].phase.Idle?
    {
      var flag := AcquireFlag(t, deadline);
      mid, called := |trace|, |trace|;
      assert trace[..mid] == trace;
      if flag.Err? {
        return Err(flag.error), mid, called;
      }
      ghost var flagged := trace;
      Interfere(t);
      var checked := DuplicateAndCheck(t, raw, mid);
      ghost var answered := trace;
      called := |trace|;
      if checked.Ok? {
        r := LockThenPublish(t, deadline, flag.value, lost - old(lost));
        ReachableInv(state);
      } else {
        Unlock(t);
        r := Err(checked.error);
      }
      Compose(flagged, answered, trace, |old(trace)|, true, deadline);
    }

    /** From the directory check to the comparison: a kept duplicate of the canonical file, or nothing. */
    method DuplicateAndCheck(t: Tid, raw: Fd, ghost mid: nat) returns (r: Result<()>)
      requires Runs(t) && state.threads[t].phase.Flagged? && mid == |trace|
      modifies this`state, this`now, this`trace
      ensures Runs(t) && old(now) <= now && old(trace) < trace && Checked(r, mid)
      ensures if r.Ok? then state.threads[t].phase.Opened? else state.threads[t].phase.Flagged?
    {
      var ready := Ask(Directory, mid, true);
      if !ready {
        return Err(Io);
      }
      var duplicated := TryDuplicate(t, raw, mid);
      if !duplicated {
        return Err(Io);
      }
      Interfere(t);
      r := CheckDuplicate(t, raw, mid);
    }

    /** How the calls of an adoption ended: well after the last of them, or with the one that failed. */
    ghost predicate Checked(r: Result<()>, mid: nat)
      reads this`trace
    {
      && CallsInOrder(trace, mid, true)
      && if r.Ok? then |trace| == mid + ADOPT_CALLS && WasOk(trace[|trace| - 1])
         else EndsInFault(trace, mid) && r.error == if EndsUnrecognised(trace, mid) then NotTheLockFile else Io
    }

    method TryDuplicate(t: Tid, raw: Fd, ghost mid: nat) returns (ok: bool)
      requires Runs(t) && state.threads[t].phase.Flagged? && MayCall(mid, true, Duplicate)
      modifies this`state, this`trace
      ensures Runs(t) && Answered(old(trace), mid, true, Duplicate, ok)
      ensures if ok then state.threads[t].phase.Duplicated? else state == old(state)
    {
      var fd: Fd := *;
      ok := Enabled(state, ThreadStep(t, DuplicateRaw(raw, fd)));
      Note(Duplicate, ok, mid, true);
      if ok {
        Perform(ThreadStep(t, DuplicateRaw(raw, fd)));
      }
    }

    /** Seals the inherited descriptor and compares files; the duplicate survives only a match. */
    method CheckDuplicate(t: Tid, raw: Fd, ghost mid: nat) returns (r: Result<()>)
      requires Runs(t) && state.threads[t].phase.Duplicated? && MayCall(mid, true, Seal)
      modifies this`state, this`now, this`trace
      ensures Runs(t) && old(now) <= now && old(trace) < trace && Checked(r, mid)
      ensures if r.Ok? then state.threads[t].phase.Opened? else state.threads[t].phase.Flagged?
      ensures r.Ok? ==> OnLockFile(old(state), t)
      ensures r == Err(NotTheLockFile) ==> !OnLockFile(old(state), t)
    {
      var sealed := TrySeal(t, raw, mid);
      if !sealed {
        DropFile(t);
        return Err(Io);
      }
      LockFileStays(old(state), state, t);
      ghost var sealedAt := state;
      Interfere(t);
      LockFileStays(sealedAt, state, t);
      r := CompareOrClose(t, mid);
    }

    method CompareOrClose(t: Tid, ghost mid: nat) returns (r: Result<()>)
      requires Runs(t) && state.threads[t].phase.Duplicated? && MayCall(mid, true, Metadata)
      modifies this`state, this`now, this`trace
      ensures Runs(t) && old(now) <= now && old(trace) < trace && Checked(r, mid)
      ensures if r.Ok? then state.threads[t].phase.Opened? else state.threads[t].phase.Flagged?
      ensures r.Ok? ==> OnLockFile(old(state), t)
      ensures r == Err(NotTheLockFile) ==> !OnLockFile(old(state), t)
    {
      var readable := Ask(Metadata, mid, true);
      if !readable {
        DropFile(t);
        return Err(Io);
      }
      var same := Compare(t, mid);
      if !same {
        DropFile(t);
        return Err(NotTheLockFile);
      }
      r := Ok(());
    }

    /** Marking the inherited descriptor close-on-exec; it fails if that is not open. */
    method TrySeal(t: Tid, raw: Fd, ghost mid: nat) returns (ok: bool)
      requires Runs(t) && MayCall(mid, true, Seal)
      modifies this`state, this`trace
      ensures Runs(t) && Answered(old(trace), mid, true, Seal, ok)
      ensures Undisturbed(old(state), state, t) && (!ok ==> state == old(state))
      ensures ok ==> (state.threads[t].pid, raw) in state.descriptors
    {
      UndisturbedByNothing(state, t);
      var p := state.threads[t].pid;
      ok := *;
      ok := ok && (p, raw) in state.descriptors;
      Note(Seal, ok, mid, true);
      if ok {
        Perform(ProcessStep(p, SealRaw(raw)));
      }
    }

    /** Whether the duplicate is a descriptor of the canonical lock file, and if so using it as one. */
    method Compare(t: Tid, ghost mid: nat) returns (same: bool)
      requires Runs(t) && state.threads[t].phase.Duplicated? && MayCall(mid, true, CompareFiles)
      modifies this`state, this`trace
      ensures Runs(t) && Answered(old(trace), mid, true, CompareFiles, same) && (same <==> OnLockFile(old(state), t))
      ensures if same then state.threads[t].phase.Opened? else state == old(state)
    {
      ReachableInv(state);
      same := Enabled(state, ThreadStep(t, RecogniseFile));
      Note(CompareFiles, same, mid, true);
      if same {
        Perform(ThreadStep(t, RecogniseFile));
      }
    }

    /** Dropping a lease: fields drop in declaration order, the file before the process flag. */
    method ReleaseLease(t: Tid)
      requires Runs(t) && state.threads[t].phase.Live?
      modifies this`state, this`now
      ensures Runs(t) && state.threads[t].phase.Idle?
    {
      ReachableInv(state);
      Perform(ThreadStep(t, CloseFile));
      Interfere(t);
      Perform(ThreadStep(t, DropFlag));
    }
  }
}

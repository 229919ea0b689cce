/** The interaction lease as a step protocol over processes, threads, descriptors and open file
descriptions.

A lease is two locks taken in order: an in-process flag (one per process, fresh after `exec`) and an
exclusive lock on the canonical lock file. The file lock belongs to the open file description, so it
survives as long as any descriptor of any process still refers to that description; descriptors that
are not close-on-exec are inherited by spawned processes. */
module LeaseProtocol {
  import opened Common

  type Pid = nat
  type Tid = nat
  type Fd = nat
  type Description = nat

  datatype Descriptor = Descriptor(description: Description, closeOnExec: bool)

  /** Where one thread stands in acquiring, using or giving up a lease. */
  datatype Phase =
    | Idle
    | Flagged                    // owns the process flag and no lease descriptor
    | Duplicated(fd: Fd)         // adopted descriptor whose file is not yet known to be the lock file
    | Opened(fd: Fd)             // descriptor of the canonical lock file, not yet locked by this thread
    | Locked(fd: Fd)             // the file lock is held, the last deadline test is pending
    | Live(fd: Fd)               // an interaction lease

  datatype Thread = Thread(pid: Pid, phase: Phase)

  datatype State = State(
    lineage: map<Pid, set<Pid>>,          // every process ever started, with itself and its ancestors
    running: set<Pid>,
    flagged: set<Pid>,                    // processes whose lease flag is true
    threads: map<Tid, Thread>,
    descriptors: map<(Pid, Fd), Descriptor>,
    creator: map<Description, Pid>,       // the process whose open(2) made the description
    canonical: set<Description>,          // descriptions of the canonical lock file
    holder: Option<Description>           // the description holding the exclusive file lock
  )

  datatype ThreadAction =
    | TakeFlag
    | DropFlag
    | OpenLockFile(fd: Fd, d: Description)
    | DuplicateRaw(raw: Fd, fd: Fd)
    | RecogniseFile
    | TryLock
    | Publish
    | CloseFile
    | DuplicateInheritable(fd: Fd)

  /** Everything else a process can do to its own descriptors and threads, outside the lease code. */
  datatype ProcessAction =
    | SealRaw(raw: Fd)
    | CloseOther(other: Fd)
    | OpenOther(other: Fd, d: Description, closeOnExec: bool)
    | Spawn(child: Pid)
    | StartThread(t: Tid)
    | Crash

  datatype Step = ThreadStep(t: Tid, act: ThreadAction) | ProcessStep(p: Pid, deed: ProcessAction)

  predicate OwnsFd(phase: Phase) {
    !phase.Idle? && !phase.Flagged?
  }

  predicate Busy(s: State, t: Tid) {
    t in s.threads && !s.threads[t].phase.Idle?
  }

  /** The table key of the lease descriptor a thread owns. */
  function LeaseKey(s: State, t: Tid): (Pid, Fd)
    requires t in s.threads && OwnsFd(s.threads[t].phase)
  {
    (s.threads[t].pid, s.threads[t].phase.fd)
  }

  predicate OwnedByThread(s: State, key: (Pid, Fd)) {
    exists t :: t in s.threads && OwnsFd(s.threads[t].phase) && LeaseKey(s, t) == key
  }

  predicate CanTryLock(s: State, t: Tid) {
    && t in s.threads && s.threads[t].phase.Opened?
    && LeaseKey(s, t) in s.descriptors
    && (s.holder.None? || s.holder.value == s.descriptors[LeaseKey(s, t)].description)
  }

  predicate EnabledThread(s: State, t: Tid, act: ThreadAction) {
    match act
    case TakeFlag => t in s.threads && s.threads[t].phase.Idle? && s.threads[t].pid !in s.flagged
    case DropFlag => t in s.threads && s.threads[t].phase.Flagged?
    case OpenLockFile(fd, d) =>
      t in s.threads && s.threads[t].phase.Flagged? && (s.threads[t].pid, fd) !in s.descriptors && d !in s.creator
    case DuplicateRaw(raw, fd) =>
      && t in s.threads && s.threads[t].phase.Flagged?
      && (s.threads[t].pid, raw) in s.descriptors && (s.threads[t].pid, fd) !in s.descriptors
    case RecogniseFile =>
      && t in s.threads && s.threads[t].phase.Duplicated?
      && LeaseKey(s, t) in s.descriptors && s.descriptors[LeaseKey(s, t)].description in s.canonical
    case TryLock => CanTryLock(s, t)
    case Publish => t in s.threads && s.threads[t].phase.Locked?
    case CloseFile => t in s.threads && OwnsFd(s.threads[t].phase) && LeaseKey(s, t) in s.descriptors
    case DuplicateInheritable(fd) =>
      && t in s.threads && s.threads[t].phase.Live? && LeaseKey(s, t) in s.descriptors
      && (s.threads[t].pid, fd) !in s.descriptors
  }

  predicate EnabledProcess(s: State, p: Pid, deed: ProcessAction) {
    match deed
    case SealRaw(raw) => (p, raw) in s.descriptors
    case CloseOther(fd) => (p, fd) in s.descriptors && !OwnedByThread(s, (p, fd))
    case OpenOther(fd, d, _) => p in s.running && (p, fd) !in s.descriptors && d !in s.creator
    case Spawn(child) => p in s.running && child !in s.lineage
    case StartThread(t) => p in s.running && t !in s.threads
    case Crash => p in s.running
  }

  predicate Enabled(s: State, step: Step) {
    match step
    case ThreadStep(t, act) => EnabledThread(s, t, act)
    case ProcessStep(p, deed) => EnabledProcess(s, p, deed)
  }

  function SetPhase(s: State, t: Tid, phase: Phase): State
    requires t in s.threads
  {
    s.(threads := s.threads[t := s.threads[t].(phase := phase)])
  }

  /** The descriptor table after some descriptors are gone; the lock is released with the last one. */
  function WithDescriptors(s: State, remaining: map<(Pid, Fd), Descriptor>): State {
    s.(descriptors := remaining,
       holder := if s.holder.Some? && (exists k :: k in remaining && remaining[k].description == s.holder.value)
       then s.holder else None)
  }

  function InheritedBy(s: State, p: Pid, child: Pid): map<(Pid, Fd), Descriptor> {
    map k | k in s.descriptors && k.0 == p && !s.descriptors[k].closeOnExec :: (child, k.1) := s.descriptors[k]
  }

  function ApplyThread(s: State, t: Tid, act: ThreadAction): State
    requires EnabledThread(s, t, act)
  {
    match act
    case TakeFlag => SetPhase(s, t, Flagged).(flagged := s.flagged + {s.threads[t].pid})
    case DropFlag => SetPhase(s, t, Idle).(flagged := s.flagged - {s.threads[t].pid})
    case OpenLockFile(fd, d) =>
      SetPhase(s, t, Opened(fd)).(
      descriptors := s.descriptors[(s.threads[t].pid, fd) := Descriptor(d, true)],
      creator := s.creator[d := s.threads[t].pid],
      canonical := s.canonical + {d})
    case DuplicateRaw(raw, fd) =>
      SetPhase(s, t, Duplicated(fd)).(
      descriptors := s.descriptors[(s.threads[t].pid, fd) :=
        Descriptor(s.descriptors[(s.threads[t].pid, raw)].description, true)])
    case RecogniseFile => SetPhase(s, t, Opened(s.threads[t].phase.fd))
    case TryLock =>
      SetPhase(s, t, Locked(s.threads[t].phase.fd)).(holder := Some(s.descriptors[LeaseKey(s, t)].description))
    case Publish => SetPhase(s, t, Live(s.threads[t].phase.fd))
    case CloseFile => WithDescriptors(SetPhase(s, t, Flagged), s.descriptors - {LeaseKey(s, t)})
    case DuplicateInheritable(fd) =>
      s.(descriptors := s.descriptors[(s.threads[t].pid, fd) :=
        Descriptor(s.descriptors[LeaseKey(s, t)].description, false)])
  }

  function ApplyProcess(s: State, p: Pid, deed: ProcessAction): State
    requires EnabledProcess(s, p, deed)
  {
    match deed
    case SealRaw(raw) => s.(descriptors := s.descriptors[(p, raw) := s.descriptors[(p, raw)].(closeOnExec := true)])
    case CloseOther(fd) => WithDescriptors(s, s.descriptors - {(p, fd)})
    case OpenOther(fd, d, closeOnExec) =>
      s.(descriptors := s.descriptors[(p, fd) := Descriptor(d, closeOnExec)], creator := s.creator[d := p])
    case Spawn(child) =>
      var parents := if p in s.lineage then s.lineage[p] else {};
      s.(lineage := s.lineage[child := parents + {child}],
         running := s.running + {child},
         descriptors := s.descriptors + InheritedBy(s, p, child))
    case StartThread(t) => s.(threads := s.threads[t := Thread(p, Idle)])
    case Crash =>
      WithDescriptors(
        s.(running := s.running - {p},
           flagged := s.flagged - {p},
           threads := map t | t in s.threads && s.threads[t].pid != p :: s.threads[t]),
        map k | k in s.descriptors && k.0 != p :: s.descriptors[k])
  }

  function Apply(s: State, step: Step): State
    requires Enabled(s, step)
  {
    match step
    case ThreadStep(t, act) => ApplyThread(s, t, act)
    case ProcessStep(p, deed) => ApplyProcess(s, p, deed)
  }

  ghost predicate Next(s: State, s': State) {
    exists step :: Enabled(s, step) && s' == Apply(s, step)
  }

  /** One process, no thread inside the lease code, no descriptor open. */
  ghost predicate Initial(s: State) {
    && |s.lineage| == 1 && s.running == s.lineage.Keys
    && (forall p :: p in s.lineage ==> s.lineage[p] == {p})
    && s.flagged == {} && s.descriptors == map[] && s.creator == map[] && s.canonical == {} && s.holder.None?
    && (forall t :: t in s.threads ==> s.threads[t].phase.Idle? && s.threads[t].pid in s.running)
  }

  ghost predicate IsRun(run: seq<State>) {
    && |run| > 0 && Initial(run[0])
    && forall i :: 0 < i < |run| ==> Next(run[i - 1], run[i])
  }

  ghost predicate Reachable(s: State) {
    exists run :: IsRun(run) && run[|run| - 1] == s
  }

  // ---------------------------------------------------------------- the inductive invariant

  ghost predicate Owners(s: State) {
    && (forall t :: t in s.threads ==> s.threads[t].pid in s.running)
    && (forall t :: t in s.threads && OwnsFd(s.threads[t].phase) ==> LeaseKey(s, t) in s.descriptors)
    && (forall k :: k in s.descriptors ==> k.0 in s.running && s.descriptors[k].description in s.creator)
  }

  ghost predicate FlagIsMutex(s: State) {
    && (forall t :: Busy(s, t) ==> s.threads[t].pid in s.flagged)
    && (forall p :: p in s.flagged ==> exists t :: Busy(s, t) && s.threads[t].pid == p)
    && (forall t, u :: Busy(s, t) && Busy(s, u) && s.threads[t].pid == s.threads[u].pid ==> t == u)
  }

  /** A thread past recognising the file has a descriptor of the lock file; past locking it, the lock. */
  ghost predicate LockAt(s: State, t: Tid)
    requires t in s.threads
  {
    OwnsFd(s.threads[t].phase) && !s.threads[t].phase.Duplicated? ==>
      && LeaseKey(s, t) in s.descriptors && s.descriptors[LeaseKey(s, t)].description in s.canonical
      && (!s.threads[t].phase.Opened? ==> s.holder == Some(s.descriptors[LeaseKey(s, t)].description))
  }

  ghost predicate HolderOk(s: State) {
    s.canonical <= s.creator.Keys && (s.holder.Some? ==> s.holder.value in s.canonical)
  }

  ghost predicate LockIsHeld(s: State) {
    HolderOk(s) && forall t :: t in s.threads ==> LockAt(s, t)
  }

  ghost predicate LockHasDescriptor(s: State) {
    s.holder.Some? ==> exists k :: k in s.descriptors && s.descriptors[k].description == s.holder.value
  }

  ghost predicate Lineage(s: State) {
    && s.running <= s.lineage.Keys
    && forall p :: p in s.lineage ==> p in s.lineage[p]
  }

  /** The process of a descriptor descends from the process that made its description. */
  ghost predicate InheritedAt(s: State, k: (Pid, Fd))
    requires k in s.descriptors
  {
    && k.0 in s.lineage && s.descriptors[k].description in s.creator
    && s.creator[s.descriptors[k].description] in s.lineage[k.0]
  }

  ghost predicate ByInheritance(s: State) {
    && Lineage(s)
    && forall k :: k in s.descriptors ==> InheritedAt(s, k)
  }

  ghost predicate Inv(s: State) {
    Owners(s) && FlagIsMutex(s) && LockIsHeld(s) && LockHasDescriptor(s) && ByInheritance(s)
  }

  lemma InitialInv(s: State)
    requires Initial(s)
    ensures Inv(s)
  {
  }

  lemma OwnersStep(s: State, step: Step)
    requires Inv(s) && Enabled(s, step)
    ensures Owners(Apply(s, step))
  {
    match step
    case ThreadStep(t, act) => OwnersThreadStep(s, t, act);
    case ProcessStep(p, deed) => OwnersProcessStep(s, p, deed);
  }

  lemma OwnersThreadStep(s: State, t: Tid, act: ThreadAction)
    requires Inv(s) && EnabledThread(s, t, act)
    ensures Owners(ApplyThread(s, t, act))
  {
    if act.CloseFile? {
      CloseKeepsOthers(s, t);
    }
  }

  lemma OwnersProcessStep(s: State, p: Pid, deed: ProcessAction)
    requires Owners(s) && EnabledProcess(s, p, deed)
    ensures Owners(ApplyProcess(s, p, deed))
  {
  }

  /** Two threads never own the same descriptor: one flag per process admits one owner. */
  lemma CloseKeepsOthers(s: State, t: Tid)
    requires Inv(s) && t in s.threads && OwnsFd(s.threads[t].phase)
    ensures forall u :: u in s.threads && u != t && OwnsFd(s.threads[u].phase) ==> LeaseKey(s, u) != LeaseKey(s, t)
  {
    forall u | u in s.threads && u != t && OwnsFd(s.threads[u].phase)
      ensures LeaseKey(s, u) != LeaseKey(s, t)
    {
      assert Busy(s, u) && Busy(s, t);
    }
  }

  /** A process step moves no thread; it can only end it, with its process. */
  lemma ProcessLeavesThreads(s: State, p: Pid, deed: ProcessAction)
    requires Owners(s) && EnabledProcess(s, p, deed)
    ensures var s' := ApplyProcess(s, p, deed);
            && (forall t :: t in s'.threads && t in s.threads ==> s'.threads[t] == s.threads[t])
            && (forall t :: t in s'.threads && t !in s.threads ==> s'.threads[t].phase.Idle?)
            && (forall t :: t in s.threads ==> (t in s'.threads <==> !(deed.Crash? && s.threads[t].pid == p)))
            && s'.flagged == (if deed.Crash? then s.flagged - {p} else s.flagged)
  {
  }

  lemma FlagStep(s: State, step: Step)
    requires Inv(s) && Enabled(s, step)
    ensures FlagIsMutex(Apply(s, step))
  {
    match step
    case ThreadStep(t, act) => FlagThreadStep(s, t, act);
    case ProcessStep(p, deed) => FlagProcessStep(s, p, deed);
  }

  lemma FlagProcessStep(s: State, p: Pid, deed: ProcessAction)
    requires Inv(s) && EnabledProcess(s, p, deed)
    ensures FlagIsMutex(ApplyProcess(s, p, deed))
  {
    ProcessLeavesThreads(s, p, deed);
    var s' := ApplyProcess(s, p, deed);
    SameBusy(s, s');
    forall q | q in s'.flagged
      ensures exists t :: Busy(s', t) && s'.threads[t].pid == q
    {
      var t :| Busy(s, t) && s.threads[t].pid == q;
      assert Busy(s', t);
    }
  }

  lemma SameBusy(s: State, s': State)
    requires forall t :: t in s'.threads && t in s.threads ==> s'.threads[t] == s.threads[t]
    requires forall t :: t in s'.threads && t !in s.threads ==> s'.threads[t].phase.Idle?
    ensures forall t :: Busy(s', t) ==> Busy(s, t) && s'.threads[t] == s.threads[t]
  {
  }

  function FlaggedAfter(s: State, t: Tid, act: ThreadAction): set<Pid>
    requires t in s.threads
  {
    match act
    case TakeFlag => s.flagged + {s.threads[t].pid}
    case DropFlag => s.flagged - {s.threads[t].pid}
    case _ => s.flagged
  }

  /** Among threads, only the one that takes the flag becomes busy, and only the one that drops it stops. */
  lemma ThreadLeavesOthers(s: State, t: Tid, act: ThreadAction)
    requires EnabledThread(s, t, act)
    ensures var s' := ApplyThread(s, t, act);
            && (forall u :: u != t ==> (Busy(s', u) <==> Busy(s, u)) && (Busy(s, u) ==> s'.threads[u] == s.threads[u]))
            && t in s.threads && t in s'.threads && s'.threads[t].pid == s.threads[t].pid
            && (Busy(s, t) <==> !act.TakeFlag?) && (Busy(s', t) <==> !act.DropFlag?)
            && s'.flagged == FlaggedAfter(s, t, act)
            && (act.TakeFlag? ==> s.threads[t].pid !in s.flagged)
  {
  }

  lemma FlagThreadStep(s: State, t: Tid, act: ThreadAction)
    requires Inv(s) && EnabledThread(s, t, act)
    ensures FlagIsMutex(ApplyThread(s, t, act))
  {
    ThreadLeavesOthers(s, t, act);
    var s' := ApplyThread(s, t, act);
    FlagMoves(s, s', t, act);
  }

  lemma FlagMoves(s: State, s': State, t: Tid, act: ThreadAction)
    requires FlagIsMutex(s) && t in s.threads && t in s'.threads && s'.threads[t].pid == s.threads[t].pid
    requires forall u :: u != t ==> (Busy(s', u) <==> Busy(s, u)) && (Busy(s, u) ==> s'.threads[u] == s.threads[u])
    requires (Busy(s, t) <==> !act.TakeFlag?) && (Busy(s', t) <==> !act.DropFlag?)
    requires s'.flagged == FlaggedAfter(s, t, act)
    requires act.TakeFlag? ==> s.threads[t].pid !in s.flagged
    ensures FlagIsMutex(s')
  {
    forall q | q in s'.flagged
      ensures exists u :: Busy(s', u) && s'.threads[u].pid == q
    {
      if q == s.threads[t].pid && !act.DropFlag? {
        assert Busy(s', t);
      } else {
        var u :| Busy(s, u) && s.threads[u].pid == q;
        assert Busy(s', u);
      }
    }
  }

  lemma LockThreadStepAt(s: State, t: Tid, act: ThreadAction, u: Tid)
    requires Inv(s) && EnabledThread(s, t, act) && u in s.threads
    ensures u in ApplyThread(s, t, act).threads && LockAt(ApplyThread(s, t, act), u)
  {
    assert LockAt(s, u) && LockAt(s, t);
    if act.CloseFile? {
      CloseKeepsOthers(s, t);
    }
  }

  lemma LockProcessStepAt(s: State, p: Pid, deed: ProcessAction, u: Tid)
    requires Inv(s) && EnabledProcess(s, p, deed) && u in ApplyProcess(s, p, deed).threads
    ensures LockAt(ApplyProcess(s, p, deed), u)
  {
    assert u in s.threads ==> LockAt(s, u);
  }

  lemma HolderThreadStep(s: State, t: Tid, act: ThreadAction)
    requires LockIsHeld(s) && EnabledThread(s, t, act)
    ensures HolderOk(ApplyThread(s, t, act))
  {
    assert LockAt(s, t);
  }

  lemma HolderProcessStep(s: State, p: Pid, deed: ProcessAction)
    requires HolderOk(s) && EnabledProcess(s, p, deed)
    ensures HolderOk(ApplyProcess(s, p, deed))
  {
  }

  lemma LockStep(s: State, step: Step)
    requires Inv(s) && Enabled(s, step)
    ensures LockIsHeld(Apply(s, step))
  {
    match step {
      case ThreadStep(t, act) => HolderThreadStep(s, t, act);
      case ProcessStep(p, deed) => HolderProcessStep(s, p, deed);
    }
    forall u | u in Apply(s, step).threads ensures LockAt(Apply(s, step), u) {
      match step
      case ThreadStep(t, act) => LockThreadStepAt(s, t, act, u);
      case ProcessStep(p, deed) => LockProcessStepAt(s, p, deed, u);
    }
  }

  lemma LockHasDescriptorStep(s: State, step: Step)
    requires Inv(s) && Enabled(s, step)
    ensures LockHasDescriptor(Apply(s, step))
  {
    var s' := Apply(s, step);
    if step.ThreadStep? && step.act.TryLock? {
      assert LeaseKey(s, step.t) in s'.descriptors;
    } else if s'.holder.Some? && s'.descriptors.Keys >= s.descriptors.Keys {
      var k :| k in s.descriptors && s.descriptors[k].description == s.holder.value;
      assert k in s'.descriptors;
    }
  }

  lemma LineageStep(s: State, step: Step)
    requires Inv(s) && Enabled(s, step)
    ensures Lineage(Apply(s, step))
  {
  }

  lemma InheritedThreadStep(s: State, t: Tid, act: ThreadAction, k: (Pid, Fd))
    requires Inv(s) && EnabledThread(s, t, act) && k in ApplyThread(s, t, act).descriptors
    ensures InheritedAt(ApplyThread(s, t, act), k)
  {
    assert k in s.descriptors ==> InheritedAt(s, k);
  }

  lemma InheritedProcessStep(s: State, p: Pid, deed: ProcessAction, k: (Pid, Fd))
    requires Inv(s) && EnabledProcess(s, p, deed) && k in ApplyProcess(s, p, deed).descriptors
    ensures InheritedAt(ApplyProcess(s, p, deed), k)
  {
    assert k in s.descriptors ==> InheritedAt(s, k);
  }

  lemma ByInheritanceStep(s: State, step: Step)
    requires Inv(s) && Enabled(s, step)
    ensures ByInheritance(Apply(s, step))
  {
    LineageStep(s, step);
    forall k | k in Apply(s, step).descriptors ensures InheritedAt(Apply(s, step), k) {
      match step
      case ThreadStep(t, act) => InheritedThreadStep(s, t, act, k);
      case ProcessStep(p, deed) => InheritedProcessStep(s, p, deed, k);
    }
  }

  lemma StepInv(s: State, step: Step)
    requires Inv(s) && Enabled(s, step)
    ensures Inv(Apply(s, step))
  {
    OwnersStep(s, step);
    FlagStep(s, step);
    LockStep(s, step);
    LockHasDescriptorStep(s, step);
    ByInheritanceStep(s, step);
  }

  lemma NextInv(s: State, s': State)
    requires Inv(s) && Next(s, s')
    ensures Inv(s')
  {
    var step :| Enabled(s, step) && s' == Apply(s, step);
    StepInv(s, step);
  }

  lemma {:induction false} RunInv(run: seq<State>)
    requires IsRun(run)
    ensures Inv(run[|run| - 1])
    decreases |run|
  {
    if |run| == 1 {
      InitialInv(run[0]);
    } else {
      RunInv(run[..|run| - 1]);
      NextInv(run[|run| - 2], run[|run| - 1]);
    }
  }

  lemma ReachableInv(s: State)
    requires Reachable(s)
    ensures Inv(s)
  {
    var run :| IsRun(run) && run[|run| - 1] == s;
    RunInv(run);
  }

  lemma ReachableStep(s: State, step: Step)
    requires Reachable(s) && Enabled(s, step)
    ensures Reachable(Apply(s, step))
  {
    var run :| IsRun(run) && run[|run| - 1] == s;
    var longer := run + [Apply(s, step)];
    assert Next(longer[|run| - 1], longer[|run|]);
    forall i | 0 < i < |longer|
      ensures Next(longer[i - 1], longer[i])
    {
      if i < |run| {
        assert Next(run[i - 1], run[i]);
      }
    }
    assert IsRun(longer) && longer[|longer| - 1] == Apply(s, step);
  }

  // ---------------------------------------------------------------- what every reachable state satisfies

  /** At most one thread of a process is anywhere between taking the flag and releasing it, so a
  process has at most one live lease; and the flag is set exactly while such a thread exists, so an
  acquisition that failed, timed out or crashed never leaves it set. */
  lemma OneLeasePerProcess(s: State)
    requires Reachable(s)
    ensures forall t, u :: Busy(s, t) && Busy(s, u) && s.threads[t].pid == s.threads[u].pid ==> t == u
    ensures forall p :: p in s.flagged <==> exists t :: Busy(s, t) && s.threads[t].pid == p
  {
    ReachableInv(s);
  }

  /** Live leases share one open file description, and every process holding one descends from the
  process that opened it: the only way to a second concurrent lease is inheritance. */
  lemma LiveLeasesShareOneDescription(s: State, t: Tid, u: Tid)
    requires Reachable(s)
    requires t in s.threads && u in s.threads && s.threads[t].phase.Live? && s.threads[u].phase.Live?
    ensures LeaseKey(s, t) in s.descriptors && LeaseKey(s, u) in s.descriptors
    ensures s.descriptors[LeaseKey(s, t)].description == s.descriptors[LeaseKey(s, u)].description
    ensures var d := s.descriptors[LeaseKey(s, t)].description;
            && s.holder == Some(d) && d in s.canonical && d in s.creator
            && s.threads[t].pid in s.lineage && s.creator[d] in s.lineage[s.threads[t].pid]
            && s.threads[u].pid in s.lineage && s.creator[d] in s.lineage[s.threads[u].pid]
  {
    ReachableInv(s);
  }

  /** A lease whose description was opened by its own process excludes every lease of a process that
  does not descend from it. */
  lemma UnrelatedProcessesExclude(s: State, t: Tid, u: Tid)
    requires Reachable(s)
    requires t in s.threads && u in s.threads && s.threads[t].phase.Live? && s.threads[u].phase.Live?
    requires LeaseKey(s, t) in s.descriptors && s.descriptors[LeaseKey(s, t)].description in s.creator
    requires s.creator[s.descriptors[LeaseKey(s, t)].description] == s.threads[t].pid
    ensures s.threads[u].pid in s.lineage && s.threads[t].pid in s.lineage[s.threads[u].pid]
  {
    LiveLeasesShareOneDescription(s, t, u);
  }

  /** No crash, timeout or lost descriptor leaves the file lock behind: while it is held, some running
  process still has a descriptor for it. */
  lemma NoOrphanLock(s: State)
    requires Reachable(s)
    ensures s.holder.Some? ==>
              exists k :: k in s.descriptors && k.0 in s.running && s.descriptors[k].description == s.holder.value
  {
    ReachableInv(s);
  }

  /** After the last process that could reach the lock is gone, a fresh open of the lock file gets it. */
  lemma LockIsFreeAfterTheLastHolder(s: State, t: Tid)
    requires Reachable(s)
    requires t in s.threads && s.threads[t].phase.Opened?
    requires forall k :: k in s.descriptors && k != LeaseKey(s, t) ==> s.descriptors[k].description !in s.canonical
    ensures CanTryLock(s, t)
  {
    ReachableInv(s);
  }
}

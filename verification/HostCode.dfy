/** The code of one host of a command endpoint, run against arbitrary interference by all other processes.

Each primitive is one step of `HostProtocol`; `Interfere` lets any number of steps of others happen in between. Every
call whose answer the host depends on is recorded in `run`, so the contracts say both that the code is a run of the
protocol and that how it ends follows from what it was told. */
module HostCode {
  import opened Common
  import opened FrameReader
  import opened HostProtocol
  import opened HostTrace

  /** How a host ends. */
  datatype HostEnd = NotBound | Idled | SocketFailed

  datatype AcceptResult = Accepted(c: ClientId) | NobodyThere | Over(how: HostEnd)

  /** The last event of a host's run: idle exactly for a listener that stayed quiet, the socket exactly for one that
  could not be polled or accepted from, and not bound for everything before it listened. */
  ghost predicate EndsHost(end: HostEnd, event: Event) {
    match end
    case Idled => event.call.Arrival? && event.answer.Late?
    case SocketFailed => (event.call.Arrival? || event.call.Accepting?) && event.answer.Fault?
    case NotBound =>
      && (event.answer.Late? || event.answer.Fault?)
      && (event.call.Parent? || event.call.OwnerClock? || event.call.OwnerLock? || event.call.OwnerPause?
          || event.call.OwnedClock? || event.call.SocketCheck? || event.call.RemoveSocket? || event.call.BindSocket?)
  }

  /** A connection that a host has finished with, and when. */
  datatype Served = Served(c: ClientId, dispatched: bool, at: nat)

  /** What others cannot change for host `h`, short of stopping it: its phase, its connection's stage. */
  ghost predicate HostUndisturbed(s: State, s': State, h: HostId) {
    && h in s.hosts && h in s'.hosts && s'.hosts[h] == s.hosts[h]
    && (s.hosts[h].Serving? && s.hosts[h].c in s.connections ==>
          s.hosts[h].c in s'.connections && s'.connections[s.hosts[h].c].stage == s.connections[s.hosts[h].c].stage)
    && HostKeeps(s, s')
  }

  /** What no step undoes. */
  ghost predicate HostKeeps(s: State, s': State) {
    && (forall c :: c in s.executed ==> c in s'.executed)
    && (forall c :: FinishedAt(s, c) ==> FinishedAt(s', c))
    && s.now <= s'.now
  }

  predicate FinishedAt(s: State, c: ClientId) {
    c in s.connections && s.connections[c].stage.Finished?
  }

  lemma FinishedStays(s: State, step: Step, c: ClientId)
    requires Enabled(s, step) && FinishedAt(s, c)
    ensures FinishedAt(Apply(s, step), c)
  {
    match step
    case Tick(_) =>
    case HostStep(h, move) => FinishedStaysHost(s, h, move, c);
    case ClientStep(d, act) => FinishedStaysClient(s, d, act, c);
  }

  lemma FinishedStaysHost(s: State, h: HostId, move: HostAction, c: ClientId)
    requires EnabledHost(s, h, move) && FinishedAt(s, c)
    ensures FinishedAt(ApplyHost(s, h, move), c)
  {
  }

  lemma FinishedStaysClient(s: State, d: ClientId, act: ClientAction, c: ClientId)
    requires EnabledClient(s, d, act) && FinishedAt(s, c)
    ensures FinishedAt(ApplyClient(s, d, act), c)
  {
  }

  lemma KeepsStep(s: State, step: Step)
    requires Reachable(s) && Enabled(s, step)
    ensures HostKeeps(s, Apply(s, step))
  {
    ReachableInv(s);
    LogGrows(s, step);
    forall c | FinishedAt(s, c)
      ensures FinishedAt(Apply(s, step), c)
    {
      FinishedStays(s, step, c);
    }
    TimeStep(s, step);
  }

  lemma TimeStep(s: State, step: Step)
    requires Enabled(s, step)
    ensures s.now <= Apply(s, step).now
  {
  }

  /** What a host has served: each connection once, all of them finished by `end`, and in the log if dispatched. */
  ghost predicate ServedOnce(served: seq<Served>, s: State, end: nat) {
    && (forall i :: 0 <= i < |served| ==> FinishedAt(s, served[i].c) && served[i].at <= end)
    && (forall i :: 0 <= i < |served| && served[i].dispatched ==> served[i].c in s.executed)
    && (forall i, j :: 0 <= i < j < |served| ==> served[i].c != served[j].c)
  }

  /** The steps of host `h` itself, and those by which its parent creates or kills it. */
  predicate ConcernsHost(s: State, step: Step, h: HostId) {
    match step
    case Tick(_) => false
    case HostStep(k, _) => k == h
    case ClientStep(c, act) =>
      || act == SpawnHost(h)
      || (act.KillChild? && c in s.clients && s.clients[c].phase.Starting? && s.clients[c].phase.child == h)
  }

  lemma OtherHostStays(s: State, k: HostId, move: HostAction, h: HostId)
    requires EnabledHost(s, k, move) && k != h && h in s.hosts
    ensures h in ApplyHost(s, k, move).hosts && ApplyHost(s, k, move).hosts[h] == s.hosts[h]
  {
  }

  lemma OwnConnectionStage(s: State, c: ClientId, act: ClientAction)
    requires EnabledClient(s, c, act) && c in s.connections && ConnectionOk(s, c)
    ensures var s' := ApplyClient(s, c, act);
            c in s'.connections && s'.connections[c].stage == s.connections[c].stage
  {
  }

  /** While `h` serves, it is the only listener, so no other host moves its connection's stage. */
  lemma HostStepOfOtherHost(s: State, k: HostId, move: HostAction, h: HostId)
    requires Reachable(s) && h in s.hosts && k != h && EnabledHost(s, k, move)
    ensures HostUndisturbed(s, ApplyHost(s, k, move), h)
  {
    OtherHostStays(s, k, move, h);
    KeepsStep(s, HostStep(k, move));
    if s.hosts[h].Serving? && s.hosts[h].c in s.connections {
      OneListener(s, h, k);
      HostLeavesConnection(s, k, move, s.hosts[h].c);
    }
  }

  lemma OtherPhaseStays(s: State, c: ClientId, act: ClientAction, h: HostId)
    requires h in s.hosts && EnabledClient(s, c, act) && !ConcernsHost(s, ClientStep(c, act), h)
    ensures h in ApplyClient(s, c, act).hosts && ApplyClient(s, c, act).hosts[h] == s.hosts[h]
  {
  }

  lemma HostStepOfClient(s: State, c: ClientId, act: ClientAction, h: HostId)
    requires Reachable(s) && h in s.hosts && EnabledClient(s, c, act) && !ConcernsHost(s, ClientStep(c, act), h)
    ensures HostUndisturbed(s, ApplyClient(s, c, act), h)
  {
    OtherPhaseStays(s, c, act, h);
    KeepsStep(s, ClientStep(c, act));
    if s.hosts[h].Serving? && s.hosts[h].c in s.connections {
      ReachableInv(s);
      if s.hosts[h].c == c {
        assert ConnectionOk(s, c);
        OwnConnectionStage(s, c, act);
      } else {
        ClientLeavesOthers(s, c, act, s.hosts[h].c);
      }
    }
  }

  lemma HostStepOfOthers(s: State, step: Step, h: HostId)
    requires Reachable(s) && h in s.hosts && Enabled(s, step) && !ConcernsHost(s, step, h)
    ensures HostUndisturbed(s, Apply(s, step), h)
  {
    match step
    case Tick(_) =>
    case HostStep(k, move) => HostStepOfOtherHost(s, k, move, h);
    case ClientStep(c, act) => HostStepOfClient(s, c, act, h);
  }

  ghost predicate HostNext(s: State, s': State, h: HostId) {
    h in s.hosts && exists step :: Enabled(s, step) && !ConcernsHost(s, step, h) && s' == Apply(s, step)
  }

  lemma HostOnce(s: State, s': State, h: HostId)
    requires Reachable(s) && HostNext(s, s', h)
    ensures Reachable(s') && HostUndisturbed(s, s', h)
  {
    var step :| Enabled(s, step) && !ConcernsHost(s, step, h) && s' == Apply(s, step);
    HostStepOfOthers(s, step, h);
    ReachableStep(s, step);
  }

  /** The rely condition of `Machine.Interfere` holds of every run of everybody else. */
  lemma {:induction false} HostRunOfOthers(run: seq<State>, h: HostId)
    requires |run| > 0 && forall i :: 0 < i < |run| ==> HostNext(run[i - 1], run[i], h)
    requires Reachable(run[0]) && h in run[0].hosts
    ensures Reachable(run[|run| - 1]) && HostUndisturbed(run[0], run[|run| - 1], h)
    decreases |run|
  {
    if |run| > 1 {
      HostRunOfOthers(run[..|run| - 1], h);
      HostOnce(run[|run| - 2], run[|run| - 1], h);
    }
  }

  /** The request has arrived completely. */
  predicate Arrived(s: State, h: HostId)
    requires ServingAt(s, h, Reading)
  {
    IsRequest(FrameOf(Conn(s, h).sent, MAX_REQUEST_BYTES), MAX_REQUEST_BYTES)
  }

  /** What has arrived can no longer become a request: it ended without a newline, or it is too long. */
  predicate Unusable(s: State, h: HostId)
    requires ServingAt(s, h, Reading)
  {
    var frame := FrameOf(Conn(s, h).sent, MAX_REQUEST_BYTES);
    frame != [] && (Conn(s, h).closed || |frame| > MAX_REQUEST_BYTES) && !IsRequest(frame, MAX_REQUEST_BYTES)
  }

  class Machine {
    var state: State
    /** The calls of this host's run. */
    ghost var run: Run

    ghost predicate Runs(h: HostId)
      reads this`state
    {
      Reachable(state) && h in state.hosts
    }

    method Perform(step: Step)
      requires Reachable(state) && Enabled(state, step)
      modifies this`state
      ensures state == Apply(old(state), step) && Reachable(state) && HostKeeps(old(state), state)
    {
      KeepsStep(state, step);
      ReachableStep(state, step);
      state := Apply(state, step);
    }

    method Interfere(h: HostId)
      requires Runs(h)
      modifies this`state
      ensures Runs(h) && HostUndisturbed(old(state), state, h)
    {
    }

    method Sleep(h: HostId, duration: nat)
      requires Runs(h)
      modifies this`state
      ensures Runs(h) && HostUndisturbed(old(state), state, h) && old(state.now) + duration <= state.now
    {
      HostStepOfOthers(state, Tick(state.now + duration), h);
      Perform(Tick(state.now + duration));
    }

    // ------------------------------------------------------------ the steps of a host

    method FindSocket(h: HostId)
      requires Runs(h) && state.hosts[h] == Owner && state.path.Some?
      modifies this`state
      ensures Runs(h) && HostKeeps(old(state), state) && state.now == old(state.now)
      ensures state.hosts[h] == Clearing
    {
      Perform(HostStep(h, SeeSocket));
    }

    method FindNoSocket(h: HostId)
      requires Runs(h) && state.hosts[h] == Owner && state.path.None?
      modifies this`state
      ensures Runs(h) && HostKeeps(old(state), state) && state.now == old(state.now)
      ensures state.hosts[h] == Bindable
    {
      Perform(HostStep(h, SeeNoSocket));
    }

    method RemoveStale(h: HostId)
      requires Runs(h) && state.hosts[h] == Clearing
      modifies this`state
      ensures Runs(h) && HostKeeps(old(state), state) && state.now == old(state.now)
      ensures state.hosts[h] == Bindable
    {
      Perform(HostStep(h, Unlink));
    }

    method StopListening(h: HostId)
      requires Runs(h) && state.hosts[h] == Listening
      modifies this`state
      ensures Runs(h) && HostKeeps(old(state), state) && state.now == old(state.now)
      ensures state.hosts[h] == Closing
    {
      Perform(HostStep(h, CloseListener));
    }

    method Leave(h: HostId)
      requires Runs(h) && state.hosts[h] != Gone
      modifies this`state
      ensures Runs(h) && HostKeeps(old(state), state) && state.now == old(state.now)
      ensures state.hosts[h] == Gone
    {
      Perform(HostStep(h, HostExit));
    }

    method Listen(h: HostId)
      requires Runs(h) && state.hosts[h] == Bindable
      modifies this`state
      ensures Runs(h) && state.hosts[h] == Listening && state.path == Some(h) && state.now == old(state.now)
    {
      ReachableInv(state);
      Perform(HostStep(h, Bind));
    }

    method TakeRequest(h: HostId, c: ClientId)
      requires Runs(h) && state.hosts[h] == Serving(c) && ServingAt(state, h, Reading) && Arrived(state, h)
      modifies this`state
      ensures Runs(h) && HostKeeps(old(state), state) && state.now == old(state.now)
      ensures state.hosts[h] == Serving(c) && ServingAt(state, h, Framed)
    {
      Perform(HostStep(h, ReadRequest));
    }

    method RefuseFrame(h: HostId, c: ClientId)
      requires Runs(h) && state.hosts[h] == Serving(c) && ServingAt(state, h, Reading) && Unusable(state, h)
      modifies this`state
      ensures Runs(h) && HostKeeps(old(state), state) && state.now == old(state.now)
      ensures state.hosts[h] == Serving(c) && ServingAt(state, h, Replying(Rejected))
    {
      Perform(HostStep(h, RejectFrame));
    }

    method PassChecks(h: HostId, c: ClientId)
      requires Runs(h) && state.hosts[h] == Serving(c) && ServingAt(state, h, Framed) && c in state.clients
      requires state.now < state.clients[c].expires
      modifies this`state
      ensures Runs(h) && HostKeeps(old(state), state) && state.now == old(state.now)
      ensures state.hosts[h] == Serving(c) && ServingAt(state, h, Prepared)
    {
      Perform(HostStep(h, Prepare));
    }

    method RunBody(h: HostId, c: ClientId)
      requires Runs(h) && state.hosts[h] == Serving(c) && ServingAt(state, h, Prepared)
      modifies this`state
      ensures Runs(h) && HostKeeps(old(state), state) && state.now == old(state.now)
      ensures state.hosts[h] == Serving(c) && ServingAt(state, h, Replying(Executed)) && c in state.executed
    {
      Perform(HostStep(h, Execute));
    }

    method RefuseRequest(h: HostId, c: ClientId)
      requires Runs(h) && state.hosts[h] == Serving(c)
      requires ServingAt(state, h, Framed) || ServingAt(state, h, Prepared)
      modifies this`state
      ensures Runs(h) && HostKeeps(old(state), state) && state.now == old(state.now)
      ensures state.hosts[h] == Serving(c) && ServingAt(state, h, Replying(Rejected))
    {
      Perform(HostStep(h, RejectRequest));
    }

    method Finish(h: HostId, c: ClientId, flushed: bool)
      requires Runs(h) && state.hosts[h] == Serving(c) && c in state.connections
      requires flushed ==> state.connections[c].stage.Replying?
      modifies this`state
      ensures Runs(h) && state.hosts[h] == Listening && HostKeeps(old(state), state) && FinishedAt(state, c)
      ensures state.now == old(state.now) && state.connections[c].reply
              == if flushed then Some(old(state.connections[c].stage.reply)) else old(state.connections[c].reply)
    {
      Perform(HostStep(h, if flushed then HostAction.SendReply else DropConnection));
    }

    // ------------------------------------------------------------ the record of the calls

    ghost function Last(): Event
      requires run.events != []
      reads this`run
    {
      run.events[|run.events| - 1]
    }

    /** The last call was this one, with this answer. */
    ghost predicate After(limits: Limits, call: Call, answer: Answer)
      reads this
    {
      && run.limits == limits && run.events != [] && Was(Last(), call, answer) && Earliest(Last()) <= state.now
    }

    method Note(ghost call: Call, ghost answer: Answer, ghost limit: nat, ghost limits: Limits)
      requires run.limits == limits && MayCome(run, call, state.now) && !call.Arrival?
      requires WellTimed(Asked(call, answer, state.now, limit), limits)
      modifies this`run
      ensures run == Record(old(run).events + [Asked(call, answer, state.now, limit)], limits)
    {
      run := Longer(run, Asked(call, answer, state.now, limit));
    }

    /** The directory of the socket. */
    method CheckParent(ghost limits: Limits) returns (ok: bool)
      requires run.limits == limits && run.events == [] && limits.locking == state.now + OWNER_TIMEOUT_NS
      modifies this`run
      ensures After(limits, Parent, if ok then Good else Fault) && Last().at == state.now
    {
      ok := *;
      Note(Parent, if ok then Good else Fault, 0, limits);
    }

    /** The deadline before each attempt on the owner lock. */
    method LookAtOwnerDeadline(deadline: nat, ghost limits: Limits) returns (late: bool)
      requires (run.limits == limits && MayCome(run, OwnerClock, state.now)) && deadline == limits.locking
      modifies this`run
      ensures After(limits, OwnerClock, if late then Late else Good) && (late <==> deadline <= state.now)
    {
      late := deadline <= state.now;
      Note(OwnerClock, if late then Late else Good, deadline, limits);
    }

    /** The deadline once the owner lock is held. */
    method LookOnceOwned(deadline: nat, ghost limits: Limits) returns (late: bool)
      requires (After(limits, OwnerLock, Good)) && deadline == limits.locking
      modifies this`run
      ensures After(limits, OwnedClock, if late then Late else Good) && (late <==> deadline <= state.now)
    {
      late := deadline <= state.now;
      Note(OwnedClock, if late then Late else Good, deadline, limits);
    }

    /** Removing the socket that was found. */
    method CallUnlink(ghost limits: Limits) returns (ok: bool)
      requires After(limits, SocketCheck, Good)
      modifies this`run
      ensures After(limits, RemoveSocket, if ok then Good else Fault)
    {
      ok := *;
      Note(RemoveSocket, if ok then Good else Fault, 0, limits);
    }

    /** Binding the path. */
    method CallBind(ghost limits: Limits) returns (ok: bool)
      requires After(limits, SocketCheck, Nothing) || After(limits, RemoveSocket, Good)
      modifies this`run
      ensures After(limits, BindSocket, if ok then Good else Fault)
    {
      ok := *;
      Note(BindSocket, if ok then Good else Fault, 0, limits);
    }

    /** The last check before the body: that its deadline can be made and its directory entered. */
    method CheckExpiry(ghost limits: Limits) returns (ok: bool)
      requires After(limits, Checks, Good)
      modifies this`run
      ensures After(limits, BodyClock, if ok then Good else Fault)
    {
      ok := *;
      Note(BodyClock, if ok then Good else Fault, 0, limits);
    }

    /** Writing and flushing the reply. */
    method SendReply(ghost limits: Limits) returns (ok: bool)
      requires Answerable(limits)
      modifies this`run
      ensures After(limits, ReplySent, if ok then Good else Fault)
    {
      ok := *;
      Note(ReplySent, if ok then Good else Fault, 0, limits);
    }

    /** A reply is due: the frame was unusable, a check failed, or the body has run. */
    ghost predicate Answerable(limits: Limits)
      reads this
    {
      || After(limits, FrameRead, Nothing) || After(limits, Checks, Fault) || After(limits, BodyClock, Fault)
      || After(limits, Body, Good)
    }

    /** The host may wait for the next connection. */
    ghost predicate MayWait(limits: Limits)
      reads this
    {
      || After(limits, BindSocket, Good) || After(limits, Accepting, Nothing) || After(limits, FrameRead, Fault)
      || After(limits, ReplySent, Good) || After(limits, ReplySent, Fault)
    }

    /** The run is over, and ends like this. */
    ghost predicate Ends(limits: Limits, end: HostEnd)
      reads this`run
    {
      run.limits == limits && run.events != [] && EndsHost(end, Last())
    }

    // ------------------------------------------------------------ the code

    /** Ownership, stale-socket removal, bind, and connections one after the other until none has come for the
    whole idle time since the last. How it ends follows from the last call of the run. */
    method RunHost(h: HostId)
      returns (end: HostEnd, ghost served: seq<Served>, ghost quiet: nat, ghost limits: Limits)
      requires Runs(h) && state.hosts[h] == Booting && run.events == []
      modifies this
      ensures Runs(h) && state.hosts[h] == Gone
      ensures ServedOnce(served, state, quiet) && (end.NotBound? ==> served == [])
      ensures end.Idled? ==> quiet + IDLE_TIMEOUT_NS <= state.now
      ensures Ends(limits, end)
    {
      served, quiet := [], state.now;
      var bound;
      bound, limits := BecomeListener(h);
      if bound {
        end, served, quiet := ServeUntilIdle(h, limits);
      } else {
        end := NotBound;
      }
      ghost var before := state;
      Close(h);
      ServedStays(served, before, state, quiet);
    }

    /** Closing the listener, if there is one, and exiting. */
    method Close(h: HostId)
      requires Runs(h) && state.hosts[h] != Gone
      modifies this`state
      ensures Runs(h) && state.hosts[h] == Gone && HostKeeps(old(state), state)
    {
      ghost var first := state;
      Interfere(h);
      if state.hosts[h] == Listening {
        StopListening(h);
      }
      KeepsTwice(first, first, state);
      Interfere(h);
      Leave(h);
    }

    /** The accept loop. `quiet` is when its last wait began; nothing was served after that. */
    method ServeUntilIdle(h: HostId, ghost limits: Limits)
      returns (end: HostEnd, ghost served: seq<Served>, ghost quiet: nat)
      requires Runs(h) && state.hosts[h] == Listening && After(limits, BindSocket, Good)
      modifies this
      ensures Runs(h) && state.hosts[h] == Listening && ServedOnce(served, state, quiet) && !end.NotBound?
      ensures quiet <= state.now && (end.Idled? ==> quiet + IDLE_TIMEOUT_NS <= state.now)
      ensures Ends(limits, end)
    {
      served := [];
      var arrivals: int := *;
      while true
        invariant Runs(h) && state.hosts[h] == Listening && ServedOnce(served, state, state.now)
        invariant MayWait(limits)
        decreases arrivals
      {
        quiet := state.now;
        ghost var before := state;
        var next := AwaitAndAccept(h, arrivals > 0, limits);
        ServedStays(served, before, state, quiet);
        match next {
          case Over(how) => return how, served, quiet;
          case NobodyThere =>
          case Accepted(c) =>
            ghost var accepted := state;
            var dispatched := ServeConnection(h, c, limits);
            ServedMore(served, before, accepted, state, Served(c, dispatched, state.now));
            served := served + [Served(c, dispatched, state.now)];
        }
        arrivals := arrivals - 1;
      }
    }

    method AwaitAndAccept(h: HostId, more: bool, ghost limits: Limits) returns (r: AcceptResult)
      requires Runs(h) && state.hosts[h] == Listening && MayWait(limits)
      modifies this
      ensures Runs(h) && HostKeeps(old(state), state)
      ensures r.Accepted? ==>
                && After(limits, Accepting, Good) && state.hosts[h] == Serving(r.c)
                && ServingAt(state, h, Reading) && !FinishedAt(old(state), r.c)
      ensures !r.Accepted? ==> state.hosts[h] == Listening
      ensures r.NobodyThere? ==> After(limits, Accepting, Nothing)
      ensures r.Over? ==> Ends(limits, r.how) && !r.how.NotBound?
                          && (r.how.Idled? ==> old(state.now) + IDLE_TIMEOUT_NS <= state.now)
      ensures !r.Over? ==> more
    {
      var answer := AwaitArrival(h, more, limits);
      if !answer.Good? {
        return Over(if answer.Late? then Idled else SocketFailed);
      }
      r := AcceptOne(h, limits);
    }

    /** Polls the listener; it is found quiet only at the deadline. `more` says that a connection may still come. */
    method AwaitArrival(h: HostId, more: bool, ghost limits: Limits) returns (answer: Answer)
      requires Runs(h) && MayWait(limits)
      modifies this
      ensures Runs(h) && HostUndisturbed(old(state), state, h)
      ensures After(limits, Arrival, answer) && !answer.Nothing? && (answer.Good? ==> more)
      ensures answer.Late? ==> old(state.now) + IDLE_TIMEOUT_NS <= state.now
    {
      var deadline := state.now + IDLE_TIMEOUT_NS;
      answer := CallPoll(h, deadline, more);
      NoteArrival(answer, deadline, limits);
    }

    method NoteArrival(ghost answer: Answer, ghost deadline: nat, ghost limits: Limits)
      requires MayWait(limits) && Last().at + IDLE_TIMEOUT_NS <= deadline && (answer.Late? ==> deadline <= state.now)
      modifies this`run
      ensures After(limits, Arrival, answer)
    {
      run := Longer(run, Asked(Arrival, answer, state.now, deadline));
    }

    method CallPoll(h: HostId, deadline: nat, more: bool) returns (answer: Answer)
      requires Runs(h)
      modifies this`state
      ensures Runs(h) && HostUndisturbed(old(state), state, h)
      ensures !answer.Nothing? && (answer.Good? ==> more) && (answer.Late? ==> deadline <= state.now)
    {
      Interfere(h);
      answer := *;
      if answer.Nothing? || (answer.Good? && !more) {
        answer := Fault;
      }
      if answer.Late? && state.now < deadline {
        Sleep(h, deadline - state.now);
      }
    }

    method AcceptOne(h: HostId, ghost limits: Limits) returns (r: AcceptResult)
      requires Runs(h) && state.hosts[h] == Listening && After(limits, Arrival, Good)
      modifies this
      ensures Runs(h) && HostKeeps(old(state), state) && state.now == old(state.now)
      ensures r.Accepted? ==>
                && After(limits, Accepting, Good) && state.hosts[h] == Serving(r.c)
                && ServingAt(state, h, Reading) && !FinishedAt(old(state), r.c)
      ensures !r.Accepted? ==> state.hosts[h] == Listening
      ensures r.NobodyThere? ==> After(limits, Accepting, Nothing)
      ensures r.Over? ==> r.how.SocketFailed? && Ends(limits, r.how)
    {
      r := CallAccept(h);
      Note(Accepting, if r.Accepted? then Good else if r.NobodyThere? then Nothing else Fault, 0, limits);
    }

    method CallAccept(h: HostId) returns (r: AcceptResult)
      requires Runs(h) && state.hosts[h] == Listening
      modifies this`state
      ensures Runs(h) && HostKeeps(old(state), state) && state.now == old(state.now)
      ensures if r.Accepted? then state.hosts[h] == Serving(r.c) && ServingAt(state, h, Reading)
                                  && !FinishedAt(old(state), r.c)
              else state == old(state) && r != Over(Idled) && r != Over(NotBound)
    {
      var broken: bool := *;
      var c: ClientId := *;
      if broken {
        return Over(SocketFailed);
      }
      if c !in state.connections || state.connections[c].host != h || !state.connections[c].stage.Queued? {
        return NobodyThere;
      }
      Perform(HostStep(h, Accept(c)));
      return Accepted(c);
    }

    /** The owner lock within its second, then the path. */
    method BecomeListener(h: HostId) returns (bound: bool, ghost limits: Limits)
      requires Runs(h) && state.hosts[h] == Booting && run.events == []
      modifies this
      ensures Runs(h)
      ensures if bound then state.hosts[h] == Listening && state.path == Some(h) && After(limits, BindSocket, Good)
              else state.hosts[h] != Gone && Ends(limits, NotBound)
    {
      Interfere(h);
      var deadline := state.now + OWNER_TIMEOUT_NS;
      limits := Limits(0, deadline);
      run := Record([], limits);
      var valid := CheckParent(limits);
      if !valid {
        return false, limits;
      }
      var owned := AcquireOwnerLock(h, deadline, limits);
      if !owned {
        return false, limits;
      }
      bound := ClearAndBind(h, limits);
    }

    /** The owner lock, tried again every 10 ms until the deadline; one that comes too late is given up. */
    method AcquireOwnerLock(h: HostId, deadline: nat, ghost limits: Limits) returns (owned: bool)
      requires Runs(h) && state.hosts[h] == Booting && run.limits == limits && deadline == limits.locking
      requires MayCome(run, OwnerClock, state.now)
      modifies this
      ensures Runs(h)
      ensures if owned then state.hosts[h] == Owner && After(limits, OwnedClock, Good)
              else (state.hosts[h] == Booting || state.hosts[h] == Owner) && Ends(limits, NotBound)
    {
      while true
        invariant Runs(h) && state.hosts[h] == Booting
        invariant run.limits == limits && MayCome(run, OwnerClock, state.now)
        decreases if state.now < deadline then deadline - state.now + 1 else 0
      {
        var end := TryForOwnership(h, deadline, limits);
        if end.Some? {
          return end.value;
        }
      }
    }

    method TryForOwnership(h: HostId, deadline: nat, ghost limits: Limits) returns (end: Option<bool>)
      requires Runs(h) && state.hosts[h] == Booting && deadline == limits.locking
      requires run.limits == limits && MayCome(run, OwnerClock, state.now)
      modifies this
      ensures Runs(h)
      ensures end == Some(true) ==> state.hosts[h] == Owner && After(limits, OwnedClock, Good)
      ensures end == Some(false) ==>
                (state.hosts[h] == Booting || state.hosts[h] == Owner) && Ends(limits, NotBound)
      ensures end.None? ==>
                && state.hosts[h] == Booting && After(limits, OwnerPause, Good)
                && old(state.now) < state.now && old(state.now) < deadline
    {
      var late := LookAtOwnerDeadline(deadline, limits);
      if late {
        return Some(false);
      }
      var answer := TryOwnerLock(h, limits);
      if answer.Fault? {
        return Some(false);
      }
      Interfere(h);
      if answer.Good? {
        late := LookOnceOwned(deadline, limits);
        return Some(!late);
      }
      var expired := WaitForOwner(h, deadline, limits);
      return if expired then Some(false) else None;
    }

    method TryOwnerLock(h: HostId, ghost limits: Limits) returns (answer: Answer)
      requires Runs(h) && state.hosts[h] == Booting && After(limits, OwnerClock, Good)
      modifies this
      ensures Runs(h) && state.now == old(state.now)
      ensures !answer.Late? && After(limits, OwnerLock, answer)
      ensures if answer.Good? then state.hosts[h] == Owner else state == old(state)
      ensures answer.Nothing? ==> state.ownerLock.Some?
    {
      var failed: bool := *;
      answer := if failed then Fault else if state.ownerLock.None? then Good else Nothing;
      if answer.Good? {
        Perform(HostStep(h, TakeOwner));
      }
      Note(OwnerLock, answer, 0, limits);
    }

    method WaitForOwner(h: HostId, deadline: nat, ghost limits: Limits) returns (expired: bool)
      requires Runs(h) && After(limits, OwnerLock, Nothing) && deadline == limits.locking
      modifies this
      ensures Runs(h) && HostUndisturbed(old(state), state, h)
      ensures if expired then Ends(limits, NotBound)
              else After(limits, OwnerPause, Good) && old(state.now) < state.now && old(state.now) < deadline
    {
      if deadline <= state.now {
        Note(OwnerPause, Late, deadline, limits);
        return true;
      }
      Note(OwnerPause, Good, deadline, limits);
      var remaining := deadline - state.now;
      Sleep(h, if remaining < RETRY_NS then remaining else RETRY_NS);
      return false;
    }

    /** The owner removes whatever socket is at the path, then binds its own. */
    method ClearAndBind(h: HostId, ghost limits: Limits) returns (bound: bool)
      requires Runs(h) && state.hosts[h] == Owner && After(limits, OwnedClock, Good)
      modifies this
      ensures Runs(h)
      ensures if bound then state.hosts[h] == Listening && state.path == Some(h) && After(limits, BindSocket, Good)
              else state.hosts[h] != Gone && Ends(limits, NotBound)
    {
      var answer := CheckSocket(h, limits);
      match answer {
        case Good =>
          var removed := ClearPath(h, limits);
          if !removed {
            return false;
          }
        case Nothing =>
          FindNoSocket(h);
        case _ =>
          return false;
      }
      Interfere(h);
      bound := BindPath(h, limits);
    }

    method ClearPath(h: HostId, ghost limits: Limits) returns (removed: bool)
      requires Runs(h) && state.hosts[h] == Owner && state.path.Some? && After(limits, SocketCheck, Good)
      modifies this
      ensures Runs(h) && old(state.now) <= state.now
      ensures if removed then state.hosts[h] == Bindable && After(limits, RemoveSocket, Good)
              else state.hosts[h] != Gone && Ends(limits, NotBound)
    {
      FindSocket(h);
      Interfere(h);
      removed := CallUnlink(limits);
      if removed {
        RemoveStale(h);
      }
    }

    /** What is at the path: a private socket, nothing, or something else. */
    method CheckSocket(h: HostId, ghost limits: Limits) returns (answer: Answer)
      requires Runs(h) && state.hosts[h] == Owner && After(limits, OwnedClock, Good)
      modifies this`run
      ensures !answer.Late? && After(limits, SocketCheck, answer)
      ensures answer.Good? ==> state.path.Some?
      ensures answer.Nothing? ==> state.path.None?
    {
      var invalid: bool := *;
      answer := if invalid then Fault else if state.path.Some? then Good else Nothing;
      Note(SocketCheck, answer, 0, limits);
    }

    /** The path is free here: nobody else can bind it while this host owns the endpoint. */
    method BindPath(h: HostId, ghost limits: Limits) returns (bound: bool)
      requires Runs(h) && state.hosts[h] == Bindable
      requires After(limits, SocketCheck, Nothing) || After(limits, RemoveSocket, Good)
      modifies this
      ensures Runs(h) && After(limits, BindSocket, if bound then Good else Fault)
      ensures if bound then state.hosts[h] == Listening && state.path == Some(h) else state.hosts[h] == Bindable
    {
      bound := CallBind(limits);
      if bound {
        Listen(h);
      }
    }

    /** One connection: at most one request is read, prepared and dispatched; then the accept loop. A reply is
    written unless no frame came, and once a command was dispatched. */
    method ServeConnection(h: HostId, c: ClientId, ghost limits: Limits) returns (dispatched: bool)
      requires Runs(h) && state.hosts[h] == Serving(c) && ServingAt(state, h, Reading)
      requires After(limits, Accepting, Good)
      modifies this
      ensures Runs(h) && state.hosts[h] == Listening && HostKeeps(old(state), state) && FinishedAt(state, c)
      ensures dispatched ==> c in state.executed
      ensures !dispatched && state.connections[c].reply.Some? ==> c !in state.executed
      ensures MayWait(limits)
      ensures Last().call.ReplySent? && Last().answer.Good? ==> state.connections[c].reply.Some?
      ensures dispatched ==> Last().call.ReplySent?
    {
      dispatched := ReadAndDispatch(h, c, limits);
      ghost var before := state;
      ReplyOrDrop(h, c, dispatched, limits);
      KeepsTwice(old(state), before, state);
    }

    method ReplyOrDrop(h: HostId, c: ClientId, ghost dispatched: bool, ghost limits: Limits)
      requires Runs(h) && state.hosts[h] == Serving(c) && c in state.connections
      requires if state.connections[c].stage == Reading then After(limits, FrameRead, Fault)
               else state.connections[c].stage.Replying? && Answerable(limits)
      requires dispatched <==> state.connections[c].stage == Replying(Executed)
      modifies this
      ensures Runs(h) && state.hosts[h] == Listening && HostKeeps(old(state), state) && FinishedAt(state, c)
      ensures state.connections[c].reply.Some? ==> (dispatched <==> c in state.executed)
      ensures MayWait(limits) && (dispatched ==> Last().call.ReplySent?)
      ensures Last().call.ReplySent? && Last().answer.Good? ==> state.connections[c].reply.Some?
    {
      var flushed := false;
      if state.connections[c].stage.Replying? {
        flushed := SendReply(limits);
      }
      StageMeans(state, c);
      Finish(h, c, flushed);
      StageMeans(state, c);
    }

    method ReadAndDispatch(h: HostId, c: ClientId, ghost limits: Limits) returns (dispatched: bool)
      requires Runs(h) && state.hosts[h] == Serving(c) && ServingAt(state, h, Reading)
      requires After(limits, Accepting, Good)
      modifies this
      ensures Runs(h) && state.hosts[h] == Serving(c) && c in state.connections && HostKeeps(old(state), state)
      ensures dispatched <==> state.connections[c].stage == Replying(Executed)
      ensures dispatched ==> c in state.executed
      ensures if state.connections[c].stage == Reading then After(limits, FrameRead, Fault)
              else state.connections[c].stage.Replying? && Answerable(limits)
    {
      Interfere(h);
      var answer := ReadFrame(h, c, limits);
      ghost var framed := state;
      match answer {
        case Good =>
          dispatched := ServeRequest(h, c, limits);
        case Nothing =>
          RefuseFrame(h, c);
          dispatched := false;
        case _ =>
          dispatched := false;
      }
      KeepsTwice(old(state), framed, state);
    }

    /** The one frame of a connection: a request, an unusable frame, or none. */
    method ReadFrame(h: HostId, c: ClientId, ghost limits: Limits) returns (answer: Answer)
      requires Runs(h) && ServingAt(state, h, Reading) && After(limits, Accepting, Good)
      modifies this`run
      ensures !answer.Late? && After(limits, FrameRead, answer)
      ensures answer.Good? ==> Arrived(state, h)
      ensures answer.Nothing? ==> Unusable(state, h)
    {
      var failed: bool := *;
      answer := if failed then Fault
                else if Unusable(state, h) then Nothing
                else if Arrived(state, h) then Good else Fault;
      Note(FrameRead, answer, 0, limits);
    }

    method ServeRequest(h: HostId, c: ClientId, ghost limits: Limits) returns (dispatched: bool)
      requires Runs(h) && state.hosts[h] == Serving(c) && ServingAt(state, h, Reading) && Arrived(state, h)
      requires After(limits, FrameRead, Good)
      modifies this
      ensures Runs(h) && state.hosts[h] == Serving(c) && HostKeeps(old(state), state)
      ensures ServingAt(state, h, Replying(if dispatched then Executed else Rejected)) && Answerable(limits)
      ensures dispatched ==> c in state.executed
    {
      TakeRequest(h, c);
      ghost var taken := state;
      Interfere(h);
      KeepsTwice(old(state), taken, state);
      taken := state;
      dispatched := PrepareAndExecute(h, c, limits);
      KeepsTwice(old(state), taken, state);
    }

    /** Every check comes before the command body, and a failed one answers without calling it. */
    method PrepareAndExecute(h: HostId, c: ClientId, ghost limits: Limits) returns (dispatched: bool)
      requires Runs(h) && state.hosts[h] == Serving(c) && ServingAt(state, h, Framed)
      requires After(limits, FrameRead, Good)
      modifies this
      ensures Runs(h) && state.hosts[h] == Serving(c) && HostKeeps(old(state), state)
      ensures ServingAt(state, h, Replying(if dispatched then Executed else Rejected))
      ensures dispatched ==> c in state.executed && After(limits, Body, Good)
      ensures !dispatched ==> After(limits, Checks, Fault) || After(limits, BodyClock, Fault)
    {
      var valid := CheckRequest(h, c, limits);
      if valid {
        PassChecks(h, c);
        ghost var passed := state;
        dispatched := ExecuteInTime(h, c, limits);
        KeepsTwice(old(state), passed, state);
      } else {
        RefuseRequest(h, c);
        dispatched := false;
      }
    }

    method ExecuteInTime(h: HostId, c: ClientId, ghost limits: Limits) returns (dispatched: bool)
      requires Runs(h) && state.hosts[h] == Serving(c) && ServingAt(state, h, Prepared)
      requires After(limits, Checks, Good)
      modifies this
      ensures Runs(h) && state.hosts[h] == Serving(c) && HostKeeps(old(state), state)
      ensures ServingAt(state, h, Replying(if dispatched then Executed else Rejected))
      ensures dispatched ==> c in state.executed && After(limits, Body, Good)
      ensures !dispatched ==> After(limits, BodyClock, Fault)
    {
      Interfere(h);
      ghost var waited := state;
      var inTime := CheckExpiry(limits);
      if inTime {
        CallBody(h, c, limits);
        dispatched := true;
      } else {
        RefuseRequest(h, c);
        dispatched := false;
      }
      KeepsTwice(old(state), waited, state);
    }

    /** The command body itself. */
    method CallBody(h: HostId, c: ClientId, ghost limits: Limits)
      requires Runs(h) && state.hosts[h] == Serving(c) && ServingAt(state, h, Prepared)
      requires After(limits, BodyClock, Good)
      modifies this
      ensures Runs(h) && state.hosts[h] == Serving(c) && HostKeeps(old(state), state)
      ensures ServingAt(state, h, Replying(Executed)) && c in state.executed && After(limits, Body, Good)
    {
      RunBody(h, c);
      Note(Body, Good, 0, limits);
    }

    method CheckRequest(h: HostId, c: ClientId, ghost limits: Limits) returns (ok: bool)
      requires Runs(h) && After(limits, FrameRead, Good)
      modifies this`run
      ensures After(limits, Checks, if ok then Good else Fault)
      ensures ok ==> c in state.clients && state.now < state.clients[c].expires
    {
      ok := *;
      ok := ok && c in state.clients && state.now < state.clients[c].expires;
      Note(Checks, if ok then Good else Fault, 0, limits);
    }
  }

  lemma ServedStays(served: seq<Served>, s: State, s': State, end: nat)
    requires ServedOnce(served, s, end) && HostKeeps(s, s')
    ensures ServedOnce(served, s', end)
  {
  }

  lemma ServedMore(served: seq<Served>, s: State, s': State, s'': State, one: Served)
    requires ServedOnce(served, s, s.now) && HostKeeps(s, s') && HostKeeps(s', s'')
    requires !FinishedAt(s, one.c) && FinishedAt(s'', one.c) && one.at == s''.now
    requires one.dispatched ==> one.c in s''.executed
    ensures ServedOnce(served + [one], s'', s''.now)
  {
  }

  lemma KeepsTwice(s: State, s': State, s'': State)
    requires HostKeeps(s, s') && HostKeeps(s', s'')
    ensures HostKeeps(s, s'')
  {
  }

  /** What the stage of a connection and its reply say about execution. */
  lemma StageMeans(s: State, c: ClientId)
    requires Reachable(s) && c in s.connections
    ensures s.connections[c].stage == Replying(Executed) ==> c in s.executed
    ensures s.connections[c].reply.Some? ==> (s.connections[c].reply.value.Executed? <==> c in s.executed)
    ensures s.connections[c].reply.Some? ==> s.connections[c].stage.Finished?
  {
    ReachableInv(s);
    assert ConnectionOk(s, c);
  }
}

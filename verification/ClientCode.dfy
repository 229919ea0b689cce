/** The code of one client of the command host, run against arbitrary interference by all other processes.

Each primitive is one step of `HostProtocol`; `Interfere` lets any number of steps of others happen in between. Every
call whose answer the client depends on is recorded in `run`, so the contracts say both that the code is a run of the
protocol and that what it reports follows from what it was told. */
module ClientCode {
  import opened Common
  import opened FrameReader
  import opened HostProtocol
  import opened HostTrace

  datatype ConnectResult = Stream | NoStream | ConnectError

  /** What others cannot change for client `c`: its own record and its end of the connection. */
  ghost predicate ClientUndisturbed(s: State, s': State, c: ClientId) {
    && c in s.clients && c in s'.clients && s'.clients[c] == s.clients[c]
    && (c in s.connections ==>
          && c in s'.connections
          && s'.connections[c].sent == s.connections[c].sent && s'.connections[c].closed == s.connections[c].closed)
    && (c !in s.connections ==> c !in s'.connections)
    && (s.clients[c].phase.Abandoning? && s.clients[c].phase.child in s.hosts ==>
          var child := s.clients[c].phase.child;
          child in s'.hosts && (s.hosts[child].Gone? ==> s'.hosts[child].Gone?))
    && s.now <= s'.now
  }

  /** The steps of client `c` itself. */
  predicate ConcernsClient(step: Step, c: ClientId) {
    step.ClientStep? && step.c == c
  }

  lemma ClientStepOfOthers(s: State, step: Step, c: ClientId)
    requires c in s.clients && Enabled(s, step) && !ConcernsClient(step, c)
    ensures ClientUndisturbed(s, Apply(s, step), c)
  {
    match step
    case Tick(_) =>
    case HostStep(h, move) =>
      HostLeavesClients(s, h, move);
      if c in s.connections {
        HostLeavesConnection(s, h, move, c);
      }
    case ClientStep(d, act) =>
      ClientLeavesHosts(s, d, act);
      ClientLeavesOthers(s, d, act, c);
  }

  ghost predicate ClientNext(s: State, s': State, c: ClientId) {
    c in s.clients && exists step :: Enabled(s, step) && !ConcernsClient(step, c) && s' == Apply(s, step)
  }

  lemma ClientOnce(s: State, s': State, c: ClientId)
    requires Reachable(s) && ClientNext(s, s', c)
    ensures Reachable(s') && ClientUndisturbed(s, s', c)
  {
    var step :| Enabled(s, step) && !ConcernsClient(step, c) && s' == Apply(s, step);
    ClientStepOfOthers(s, step, c);
    ReachableStep(s, step);
  }

  /** The rely condition of `Machine.Interfere` holds of every run of everybody else. */
  lemma {:induction false} ClientRunOfOthers(run: seq<State>, c: ClientId)
    requires |run| > 0 && forall i :: 0 < i < |run| ==> ClientNext(run[i - 1], run[i], c)
    requires Reachable(run[0]) && c in run[0].clients
    ensures Reachable(run[|run| - 1]) && ClientUndisturbed(run[0], run[|run| - 1], c)
    decreases |run|
  {
    if |run| > 1 {
      ClientRunOfOthers(run[..|run| - 1], c);
      ClientOnce(run[|run| - 2], run[|run| - 1], c);
    }
  }

  // ---------------------------------------------------------------- what a run reports

  /** The last event of a client's run. */
  predicate EndsClient(event: Event) {
    event.answer.Late? || event.answer.Fault? || (event.call.ReplyRead? && event.answer.Good?)
  }

  /** What the client reports, from that event: a request that could not be built is reported as it is, a failure
  before the exchange as not delivered, one in the exchange as uncertain, and a complete valid reply as that reply. */
  ghost predicate ReportFits(outcome: Outcome, event: Event) {
    && (outcome.Unmarked? <==> event.call.Build?)
    && (outcome.Replied? <==> event.call.ReplyRead? && event.answer.Good?)
    && (outcome.Uncertain? <==> event.call.WritePiece? || (event.call.ReplyRead? && !event.answer.Good?))
  }

  /** A complete reply to a completely sent request. */
  predicate ReplyIsThere(s: State, c: ClientId) {
    && At(s, c, Exchanging) && c in s.connections && s.connections[c].reply.Some?
    && s.connections[c].sent == s.clients[c].payload
  }

  predicate PartlySent(s: State, c: ClientId) {
    c in s.clients && c in s.connections && s.connections[c].sent <= s.clients[c].payload
  }

  lemma Unsent(s: State, c: ClientId)
    requires Reachable(s) && c in s.clients && s.clients[c].phase == Exchanging
    ensures PartlySent(s, c)
  {
    ReachableInv(s);
    assert OutcomeOk(s, c) && ConnectionOk(s, c);
  }

  /** The phases before the exchange in which no child is running. */
  predicate MayFail(phase: ClientPhase) {
    BeforeExchange(phase) && !phase.Starting?
  }

  class Machine {
    var state: State
    /** The calls of this client's run. */
    ghost var run: Run

    ghost predicate Runs(c: ClientId)
      reads this`state
    {
      Reachable(state) && c in state.clients
    }

    method Perform(step: Step)
      requires Reachable(state) && Enabled(state, step)
      modifies this`state
      ensures state == Apply(old(state), step) && Reachable(state)
    {
      ReachableStep(state, step);
      state := Apply(state, step);
    }

    method Interfere(c: ClientId)
      requires Runs(c)
      modifies this`state
      ensures Runs(c) && ClientUndisturbed(old(state), state, c)
    {
    }

    method Sleep(c: ClientId, duration: nat)
      requires Runs(c)
      modifies this`state
      ensures Runs(c) && ClientUndisturbed(old(state), state, c) && old(state.now) + duration <= state.now
    {
      ClientStepOfOthers(state, Tick(state.now + duration), c);
      Perform(Tick(state.now + duration));
    }

    /** Time passes while nobody acts. */
    method SleepStill(time: nat)
      requires Reachable(state) && state.now <= time
      modifies this`state
      ensures Reachable(state) && state == old(state).(now := time)
    {
      Perform(Tick(time));
    }

    // ------------------------------------------------------------ the steps of a client

    method FailEarly(c: ClientId)
      requires Runs(c) && MayFail(state.clients[c].phase)
      modifies this`state
      ensures Runs(c) && state.clients[c].phase == Done(NotDelivered)
    {
      Perform(ClientStep(c, FailBeforeExchange));
    }

    method FailExchange(c: ClientId)
      requires Runs(c) && state.clients[c].phase == Exchanging
      modifies this`state
      ensures Runs(c) && state.clients[c].phase == Done(Uncertain)
    {
      Perform(ClientStep(c, ExchangeFails));
    }

    method TakeReplyStep(c: ClientId)
      requires Runs(c) && ReplyIsThere(state, c)
      modifies this`state
      ensures Runs(c) && state.clients[c].phase == Done(Replied(old(state.connections[c].reply.value)))
    {
      Perform(ClientStep(c, ReadReply));
    }

    method Begin(c: ClientId)
      requires Runs(c) && state.clients[c].phase == Connected && state.now < state.clients[c].expires
      modifies this`state
      ensures Runs(c) && state.clients[c].phase == Exchanging && state.now == old(state.now)
    {
      Perform(ClientStep(c, BeginExchange));
    }

    method SeeNobody(c: ClientId)
      requires Runs(c) && c !in state.connections
      requires state.clients[c].phase == FirstCheck || state.clients[c].phase == SecondCheck
      modifies this`state
      ensures Runs(c) && c !in state.connections && state.now == old(state.now)
      ensures state.clients[c] == old(state.clients[c]).(
              phase := if old(state.clients[c].phase) == FirstCheck then WaitingForStart else ReadyToSpawn)
    {
      Perform(ClientStep(c, NoListener));
    }

    method StopChild(c: ClientId, h: HostId)
      requires Runs(c) && state.clients[c].phase == Starting(h)
      modifies this`state
      ensures Runs(c) && state.clients[c] == old(state.clients[c]).(phase := Abandoning(h))
      ensures h in state.hosts && state.hosts[h].Gone? && old(state.now) <= state.now
    {
      Interfere(c);
      Perform(ClientStep(c, KillChild));
    }

    method KeepStream(c: ClientId)
      requires Runs(c) && CanConnect(state, c)
      modifies this`state
      ensures Runs(c) && state.clients[c] == old(state.clients[c]).(phase := Connected)
      ensures state.now == old(state.now)
    {
      Perform(ClientStep(c, Connect));
    }

    /** The connection was made, but the client has closed its end already. */
    method DropStream(c: ClientId)
      requires Runs(c) && CanConnect(state, c)
      modifies this`state
      ensures Runs(c) && state.clients[c] == old(state.clients[c]) && state.now == old(state.now)
      ensures c in state.connections && state.connections[c].closed && state.connections[c].sent == []
    {
      Perform(ClientStep(c, ConnectLate));
    }

    // ------------------------------------------------------------ the record of the calls

    ghost function Last(): Event
      requires run.events != []
      reads this`run
    {
      run.events[|run.events| - 1]
    }

    /** The last call was this one, with this answer. */
    ghost predicate After(limits: Limits, call: Call, answer: Answer)
      reads this
    {
      && run.limits == limits && run.events != [] && Was(Last(), call, answer) && Earliest(Last()) <= state.now
    }

    method Note(ghost call: Call, ghost answer: Answer, ghost limit: nat, ghost limits: Limits)
      requires run.limits == limits && MayCome(run, call, state.now) && !call.Arrival?
      requires WellTimed(Asked(call, answer, state.now, limit), limits)
      modifies this`run
      ensures run == Record(old(run).events + [Asked(call, answer, state.now, limit)], limits)
    {
      run := Longer(run, Asked(call, answer, state.now, limit));
    }

    /** A connect attempt has just succeeded. */
    ghost predicate Linked(limits: Limits)
      reads this
    {
      && run.limits == limits && run.events != [] && IsConnect(Last().call) && Last().answer.Good?
      && Last().at <= state.now
    }

    /** A connect attempt of this kind is next. */
    ghost predicate MayConnect(limits: Limits, which: Call)
      reads this
    {
      IsConnect(which) && run.limits == limits && MayCome(run, which, state.now)
    }

    /** The run has failed before the exchange. */
    ghost predicate FailedEarly(limits: Limits)
      reads this`run
    {
      && run.limits == limits && run.events != [] && (Last().answer.Late? || Last().answer.Fault?)
      && !Last().call.Build? && !Last().call.WritePiece? && !Last().call.ReplyRead?
    }

    /** Everything before the budget: environment, session, endpoint and payload. */
    method BuildRequest(ghost limits: Limits) returns (ok: bool)
      requires run.limits == limits && run.events == []
      modifies this`run
      ensures After(limits, Build, if ok then Good else Fault)
    {
      ok := *;
      Note(Build, if ok then Good else Fault, 0, limits);
    }

    /** The budget before connecting. */
    method LookFirst(deadline: nat, ghost limits: Limits) returns (late: bool)
      requires (After(limits, Build, Good)) && deadline == limits.expires
      modifies this`run
      ensures After(limits, FirstBudget, if late then Late else Good) && (late <==> deadline <= state.now)
      ensures Last().at == state.now
    {
      late := deadline <= state.now;
      Note(FirstBudget, if late then Late else Good, deadline, limits);
    }

    /** The deadline before each attempt on the start lock. */
    method LookAtLockDeadline(deadline: nat, ghost limits: Limits) returns (late: bool)
      requires (After(limits, FirstConnect, Nothing) || After(limits, LockPause, Good)) && deadline == limits.locking
      modifies this`run
      ensures After(limits, LockClock, if late then Late else Good) && (late <==> deadline <= state.now)
    {
      late := deadline <= state.now;
      Note(LockClock, if late then Late else Good, deadline, limits);
    }

    /** The deadline once the start lock is held. */
    method LookAfterLock(deadline: nat, ghost limits: Limits) returns (late: bool)
      requires (After(limits, StartLock, Good)) && deadline == limits.locking
      modifies this`run
      ensures After(limits, LockedClock, if late then Late else Good) && (late <==> deadline <= state.now)
    {
      late := deadline <= state.now;
      Note(LockedClock, if late then Late else Good, deadline, limits);
    }

    /** The deadline before each poll of the child. */
    method LookAtChildDeadline(deadline: nat, ghost limits: Limits) returns (late: bool)
      requires (After(limits, Spawn, Good) || After(limits, ChildPause, Good)) && deadline == limits.locking
      modifies this`run
      ensures After(limits, ChildClock, if late then Late else Good) && (late <==> deadline <= state.now)
    {
      late := deadline <= state.now;
      Note(ChildClock, if late then Late else Good, deadline, limits);
    }

    /** Whether the child is still running. */
    method PollChild(ghost limits: Limits) returns (ok: bool)
      requires After(limits, ChildClock, Good)
      modifies this`run
      ensures After(limits, ChildPoll, if ok then Good else Fault)
    {
      ok := *;
      Note(ChildPoll, if ok then Good else Fault, 0, limits);
    }

    /** The budget before the exchange. */
    method LookLast(deadline: nat, ghost limits: Limits) returns (late: bool)
      requires (Linked(limits)) && deadline == limits.expires
      modifies this`run
      ensures After(limits, LastBudget, if late then Late else Good) && (late <==> deadline <= state.now)
    {
      late := deadline <= state.now;
      Note(LastBudget, if late then Late else Good, deadline, limits);
    }

    // ------------------------------------------------------------ the code

    /** One connect attempt. A connection that is made but then dropped, because the deadline has passed or the
    stream cannot be set up, stays queued at the host, closed and empty. */
    method TryConnect(c: ClientId, which: Call, deadline: nat, ghost limits: Limits) returns (r: ConnectResult)
      requires Runs(c) && Checking(state.clients[c].phase) && c !in state.connections
      requires MayConnect(limits, which) && deadline == limits.locking
      modifies this
      ensures Runs(c) && state.clients[c].expires == old(state.clients[c].expires) && old(state.now) <= state.now
      ensures r.Stream? ==> After(limits, which, Good) && state.clients[c].phase == Connected
      ensures !r.Stream? ==> state.clients[c] == old(state.clients[c])
      ensures r.NoStream? ==> After(limits, which, Nothing) && c !in state.connections
      ensures r.ConnectError? ==> FailedEarly(limits)
      ensures c in state.connections && r.ConnectError? ==>
                state.connections[c].closed && state.connections[c].sent == []
    {
      var answer := Attempt(c, deadline);
      NoteConnect(which, answer, deadline, limits);
      match answer {
        case Good => r := Stream;
        case Nothing => r := NoStream;
        case _ => r := ConnectError;
      }
    }

    method NoteConnect(ghost which: Call, ghost answer: Answer, ghost deadline: nat, ghost limits: Limits)
      requires IsConnect(which) && run.limits == limits && MayCome(run, which, state.now)
      requires deadline == limits.locking && (answer.Late? ==> deadline <= state.now)
      modifies this`run
      ensures run.limits == limits && run.events != [] && Last() == Asked(which, answer, state.now, deadline)
    {
      Note(which, answer, deadline, limits);
    }

    /** The attempt itself: the clock, the system's answer, the clock again, and setting up the stream. */
    method Attempt(c: ClientId, deadline: nat) returns (answer: Answer)
      requires Runs(c) && Checking(state.clients[c].phase) && c !in state.connections
      modifies this`state
      ensures Runs(c) && old(state.now) <= state.now && state.clients[c].expires == old(state.clients[c].expires)
      ensures if answer.Good? then state.clients[c].phase == Connected else state.clients[c] == old(state.clients[c])
      ensures answer.Nothing? ==> c !in state.connections
      ensures answer.Late? ==> deadline <= state.now
      ensures c in state.connections && !answer.Good? ==>
                state.connections[c].closed && state.connections[c].sent == []
    {
      Interfere(c);
      if deadline <= state.now {
        return Late;
      }
      answer := CallConnect(c);
      if answer.Good? {
        answer := KeepOrDrop(c, deadline);
      }
    }

    /** The system's answer to a connect; it is good only if somebody listens. */
    method CallConnect(c: ClientId) returns (answer: Answer)
      requires Runs(c)
      ensures !answer.Late? && (answer.Good? ==> CanConnect(state, c))
    {
      answer := *;
      if answer.Late? || (answer.Good? && !CanConnect(state, c)) {
        answer := Nothing;
      }
    }

    /** After the connection was made. */
    method KeepOrDrop(c: ClientId, deadline: nat) returns (answer: Answer)
      requires Runs(c) && CanConnect(state, c)
      modifies this`state
      ensures Runs(c) && old(state.now) <= state.now && state.clients[c].expires == old(state.clients[c].expires)
      ensures !answer.Nothing? && (answer.Late? ==> deadline <= state.now)
      ensures if answer.Good? then state.clients[c].phase == Connected
              else state.clients[c] == old(state.clients[c]) && c in state.connections
                   && state.connections[c].closed && state.connections[c].sent == []
    {
      var time: int := *;
      var broken: bool := *;
      if time > state.now {
        SleepStill(time);
      }
      if deadline <= state.now {
        DropStream(c);
        return Late;
      }
      if broken {
        DropStream(c);
        return Fault;
      }
      KeepStream(c);
      return Good;
    }

    /** Connect, or start a host under the start lock and connect to it: a host is spawned only after a second look
    under the lock. On failure the start lock is released by the caller's next step, and a child that was spawned is
    gone. */
    method ConnectOrStart(c: ClientId, deadline: nat, ghost limits: Limits)
      returns (connected: bool, ghost child: Option<HostId>)
      requires Runs(c) && state.clients[c].phase == FirstCheck && c !in state.connections
      requires MayConnect(limits, FirstConnect) && deadline == limits.locking
      modifies this
      ensures Runs(c) && state.clients[c].expires == old(state.clients[c].expires)
      ensures connected ==> state.clients[c].phase == Connected && Linked(limits)
      ensures !connected ==> FailedEarly(limits) && MayFail(state.clients[c].phase)
      ensures !connected && child.Some? ==> child.value in state.hosts && state.hosts[child.value].Gone?
      ensures !connected && child.None? ==>
                var phase := state.clients[c].phase;
                phase.FirstCheck? || phase.WaitingForStart? || phase.SecondCheck? || phase.ReadyToSpawn?
    {
      child := None;
      var first := TryConnect(c, FirstConnect, deadline, limits);
      if !first.NoStream? {
        return first.Stream?, child;
      }
      SeeNobody(c);
      var locked := AcquireStartLock(c, deadline, limits);
      if !locked {
        return false, child;
      }
      connected, child := ConnectUnderLock(c, deadline, limits);
    }

    method ConnectUnderLock(c: ClientId, deadline: nat, ghost limits: Limits)
      returns (connected: bool, ghost child: Option<HostId>)
      requires Runs(c) && state.clients[c].phase == SecondCheck && c !in state.connections
      requires After(limits, LockedClock, Good) && deadline == limits.locking
      modifies this
      ensures Runs(c) && state.clients[c].expires == old(state.clients[c].expires)
      ensures connected ==> state.clients[c].phase == Connected && Linked(limits)
      ensures !connected ==> FailedEarly(limits) && MayFail(state.clients[c].phase)
      ensures !connected && child.Some? ==> child.value in state.hosts && state.hosts[child.value].Gone?
      ensures !connected && child.None? ==> state.clients[c].phase.SecondCheck? || state.clients[c].phase.ReadyToSpawn?
    {
      child := None;
      var second := TryConnect(c, SecondConnect, deadline, limits);
      if !second.NoStream? {
        return second.Stream?, child;
      }
      connected, child := StartHost(c, deadline, limits);
    }

    /** Spawning a host and waiting for it; a child that does not lead to a connection is killed and reaped. */
    method StartHost(c: ClientId, deadline: nat, ghost limits: Limits)
      returns (connected: bool, ghost child: Option<HostId>)
      requires Runs(c) && state.clients[c].phase == SecondCheck && c !in state.connections
      requires After(limits, SecondConnect, Nothing) && deadline == limits.locking
      modifies this
      ensures Runs(c) && state.clients[c].expires == old(state.clients[c].expires)
      ensures connected ==> state.clients[c].phase == Connected && Linked(limits)
      ensures !connected ==> FailedEarly(limits) && MayFail(state.clients[c].phase)
      ensures !connected && child.Some? ==> child.value in state.hosts && state.hosts[child.value].Gone?
      ensures !connected && child.None? ==> state.clients[c].phase.ReadyToSpawn?
    {
      child := None;
      SeeNobody(c);
      Interfere(c);
      var spawned := SpawnChild(c, limits);
      if spawned.None? {
        return false, child;
      }
      child := spawned;
      connected := AwaitChild(c, spawned.value, deadline, limits);
      if !connected {
        StopChild(c, spawned.value);
      }
    }

    method SpawnChild(c: ClientId, ghost limits: Limits) returns (child: Option<HostId>)
      requires Runs(c) && state.clients[c].phase == ReadyToSpawn && After(limits, SecondConnect, Nothing)
      modifies this
      ensures Runs(c) && state.clients[c].expires == old(state.clients[c].expires)
      ensures c in state.connections <==> c in old(state.connections)
      ensures child.Some? ==> state.clients[c].phase == Starting(child.value) && After(limits, Spawn, Good)
      ensures child.None? ==> state.clients[c] == old(state.clients[c]) && FailedEarly(limits)
    {
      child := CallSpawn(c);
      Note(Spawn, if child.Some? then Good else Fault, 0, limits);
    }

    method CallSpawn(c: ClientId) returns (child: Option<HostId>)
      requires Runs(c) && state.clients[c].phase == ReadyToSpawn
      modifies this`state
      ensures Runs(c) && state.now == old(state.now) && state.connections == old(state.connections)
      ensures state.clients[c] == old(state.clients[c]).(
              phase := if child.Some? then Starting(child.value) else ReadyToSpawn)
    {
      var h: HostId := *;
      if h in state.hosts {
        return None;
      }
      Perform(ClientStep(c, SpawnHost(h)));
      return Some(h);
    }

    /** The start lock, tried again every 10 ms until the deadline; one that comes too late is given up. */
    method AcquireStartLock(c: ClientId, deadline: nat, ghost limits: Limits) returns (locked: bool)
      requires Runs(c) && state.clients[c].phase == WaitingForStart && c !in state.connections
      requires After(limits, FirstConnect, Nothing) && deadline == limits.locking
      modifies this
      ensures Runs(c) && state.clients[c].expires == old(state.clients[c].expires)
      ensures c !in state.connections
      ensures if locked then state.clients[c].phase == SecondCheck && After(limits, LockedClock, Good)
              else (state.clients[c].phase == SecondCheck || state.clients[c].phase == WaitingForStart)
                   && FailedEarly(limits)
    {
      while true
        invariant Runs(c) && state.clients[c] == old(state.clients[c]) && c !in state.connections
        invariant After(limits, FirstConnect, Nothing) || After(limits, LockPause, Good)
        decreases if state.now < deadline then deadline - state.now + 1 else 0
      {
        var late := LookAtLockDeadline(deadline, limits);
        if late {
          return false;
        }
        var answer := TryStartLock(c, limits);
        if answer.Fault? {
          return false;
        }
        Interfere(c);
        if answer.Good? {
          late := LookAfterLock(deadline, limits);
          return !late;
        }
        var expired := WaitForLock(c, deadline, limits);
        if expired {
          return false;
        }
      }
    }

    method TryStartLock(c: ClientId, ghost limits: Limits) returns (answer: Answer)
      requires Runs(c) && state.clients[c].phase == WaitingForStart && After(limits, LockClock, Good)
      modifies this
      ensures Runs(c) && state.clients[c].expires == old(state.clients[c].expires) && state.now == old(state.now)
      ensures (c in state.connections <==> c in old(state.connections))
      ensures !answer.Late? && After(limits, StartLock, answer)
      ensures if answer.Good? then state.clients[c].phase == SecondCheck else state == old(state)
      ensures answer.Nothing? ==> state.startLock.Some?
    {
      var failed: bool := *;
      answer := if failed then Fault else if Enabled(state, ClientStep(c, TakeStart)) then Good else Nothing;
      if answer.Good? {
        Perform(ClientStep(c, TakeStart));
      }
      Note(StartLock, answer, 0, limits);
    }

    method WaitForLock(c: ClientId, deadline: nat, ghost limits: Limits) returns (expired: bool)
      requires Runs(c) && After(limits, StartLock, Nothing) && deadline == limits.locking
      modifies this
      ensures Runs(c) && ClientUndisturbed(old(state), state, c)
      ensures if expired then FailedEarly(limits)
              else After(limits, LockPause, Good) && old(state.now) < state.now && old(state.now) < deadline
    {
      if deadline <= state.now {
        Note(LockPause, Late, deadline, limits);
        return true;
      }
      Note(LockPause, Good, deadline, limits);
      var remaining := deadline - state.now;
      Sleep(c, if remaining < RETRY_NS then remaining else RETRY_NS);
      Interfere(c);
      return false;
    }

    /** Polls the child and the socket until a connection, an error, the child's exit or the deadline. */
    method AwaitChild(c: ClientId, h: HostId, deadline: nat, ghost limits: Limits)
      returns (connected: bool)
      requires Runs(c) && state.clients[c].phase == Starting(h) && c !in state.connections
      requires After(limits, Spawn, Good) && deadline == limits.locking
      modifies this
      ensures Runs(c) && state.clients[c].expires == old(state.clients[c].expires)
      ensures if connected then state.clients[c].phase == Connected && Linked(limits)
              else state.clients[c].phase == Starting(h) && FailedEarly(limits)
    {
      while true
        invariant Runs(c) && state.clients[c] == old(state.clients[c]) && c !in state.connections
        invariant After(limits, Spawn, Good) || After(limits, ChildPause, Good)
        decreases if state.now < deadline then deadline - state.now + 1 else 0
      {
        var end := AwaitChildOnce(c, h, deadline, limits);
        if end.Some? {
          return end.value;
        }
      }
    }

    /** One poll of the child and one connect attempt, then a pause. */
    method AwaitChildOnce(c: ClientId, h: HostId, deadline: nat, ghost limits: Limits) returns (end: Option<bool>)
      requires Runs(c) && state.clients[c].phase == Starting(h) && c !in state.connections
      requires After(limits, Spawn, Good) || After(limits, ChildPause, Good)
      requires deadline == limits.locking
      modifies this
      ensures Runs(c) && state.clients[c].expires == old(state.clients[c].expires)
      ensures end == Some(true) ==> state.clients[c].phase == Connected && Linked(limits)
      ensures end == Some(false) ==> state.clients[c].phase == Starting(h) && FailedEarly(limits)
      ensures end.None? ==>
                && state.clients[c] == old(state.clients[c]) && c !in state.connections
                && After(limits, ChildPause, Good) && old(state.now) < state.now && old(state.now) < deadline
    {
      var worthwhile := WatchChild(deadline, limits);
      if !worthwhile {
        return Some(false);
      }
      var attempt := TryConnect(c, ChildConnect, deadline, limits);
      if !attempt.NoStream? {
        return Some(attempt.Stream?);
      }
      PauseForChild(c, limits);
      return None;
    }

    /** The deadline, then the child. */
    method WatchChild(deadline: nat, ghost limits: Limits) returns (worthwhile: bool)
      requires After(limits, Spawn, Good) || After(limits, ChildPause, Good)
      requires deadline == limits.locking
      modifies this`run
      ensures if worthwhile then After(limits, ChildPoll, Good) && state.now < deadline else FailedEarly(limits)
    {
      var late := LookAtChildDeadline(deadline, limits);
      if late {
        return false;
      }
      worthwhile := PollChild(limits);
    }

    method PauseForChild(c: ClientId, ghost limits: Limits)
      requires Runs(c) && After(limits, ChildConnect, Nothing)
      modifies this
      ensures Runs(c) && ClientUndisturbed(old(state), state, c)
      ensures After(limits, ChildPause, Good) && old(state.now) < state.now
    {
      Note(ChildPause, Good, 0, limits);
      Sleep(c, RETRY_NS);
    }

    /** Forwarding one command. Whatever happens, the client ends with exactly one reported outcome: not
    delivered before the exchange, uncertain after it, or the host's reply. Which one it is follows from the last
    call of the run, and a complete valid reply is always returned. */
    method Forward(c: ClientId) returns (outcome: Outcome, ghost limits: Limits)
      requires Runs(c) && state.clients[c].phase == FirstCheck && c !in state.connections
      requires run.events == [] && run.limits.expires == state.clients[c].expires
      modifies this
      ensures Runs(c) && state.clients[c].phase == Done(outcome)
      ensures run.limits == limits && run.events != []
      ensures EndsClient(Last()) && ReportFits(outcome, Last())
      ensures limits.expires == old(state.clients[c].expires)
      ensures outcome.NotDelivered? || outcome.Unmarked? || outcome == Replied(Rejected) ==> c !in state.executed
      ensures outcome == Replied(Executed) ==> c in state.executed
    {
      Interfere(c);
      outcome, limits := ForwardSteps(c);
      HonestOutcome(state, c);
    }

    method ForwardSteps(c: ClientId) returns (outcome: Outcome, ghost limits: Limits)
      requires Runs(c) && state.clients[c].phase == FirstCheck && c !in state.connections
      requires run.events == [] && run.limits.expires == state.clients[c].expires
      modifies this
      ensures Runs(c) && state.clients[c].phase == Done(outcome)
      ensures run.limits == limits && run.events != []
      ensures EndsClient(Last()) && ReportFits(outcome, Last())
      ensures limits.expires == old(state.clients[c].expires)
    {
      var expires := state.clients[c].expires;
      limits := run.limits;
      var built := BuildRequest(limits);
      if !built {
        Perform(ClientStep(c, Refuse));
        return Unmarked, limits;
      }
      var late := LookFirst(expires, limits);
      if late {
        FailEarly(c);
        return NotDelivered, limits;
      }
      var deadline := state.now + ConnectBudget(expires, state.now);
      limits := Limits(expires, deadline);
      run := WithLock(run, deadline);
      outcome := ConnectAndExchange(c, deadline, limits);
    }

    method ConnectAndExchange(c: ClientId, deadline: nat, ghost limits: Limits)
      returns (outcome: Outcome)
      requires Runs(c) && state.clients[c].phase == FirstCheck && c !in state.connections
      requires MayConnect(limits, FirstConnect) && limits == Limits(state.clients[c].expires, deadline)
      modifies this
      ensures Runs(c) && state.clients[c].phase == Done(outcome)
      ensures run.limits == limits && run.events != []
      ensures EndsClient(Last()) && ReportFits(outcome, Last())
    {
      var connected, _ := ConnectOrStart(c, deadline, limits);
      if !connected {
        FailEarly(c);
        return NotDelivered;
      }
      Interfere(c);
      var late := LookLast(state.clients[c].expires, limits);
      if late {
        FailEarly(c);
        return NotDelivered;
      }
      Begin(c);
      outcome := ExchangeSteps(c, limits);
    }

    /** Writing the request in any number of pieces, then waiting for the reply. Every failure from here
    on is reported uncertain. */
    method ExchangeSteps(c: ClientId, ghost limits: Limits) returns (outcome: Outcome)
      requires Runs(c) && state.clients[c].phase == Exchanging && After(limits, LastBudget, Good)
      modifies this
      ensures Runs(c) && state.clients[c].phase == Done(outcome)
      ensures outcome.Uncertain? || outcome.Replied?
      ensures run.limits == limits && run.events != []
      ensures EndsClient(Last()) && ReportFits(outcome, Last())
    {
      var written := WriteRequest(c, limits);
      if !written {
        FailExchange(c);
        return Uncertain;
      }
      Interfere(c);
      outcome := AwaitReply(c, limits);
    }

    method WriteRequest(c: ClientId, ghost limits: Limits) returns (written: bool)
      requires Runs(c) && state.clients[c].phase == Exchanging && After(limits, LastBudget, Good)
      modifies this
      ensures Runs(c) && state.clients[c] == old(state.clients[c])
      ensures written ==> c in state.connections && state.connections[c].sent == state.clients[c].payload
      ensures After(limits, WritePiece, if written then Good else Fault)
    {
      Unsent(state, c);
      var ok := SendPiece(c, limits);
      while ok && |state.connections[c].sent| < |state.clients[c].payload|
        invariant Runs(c) && state.clients[c] == old(state.clients[c]) && PartlySent(state, c)
        invariant After(limits, WritePiece, if ok then Good else Fault)
        decreases if ok then |state.clients[c].payload| - |state.connections[c].sent| + 1 else 0
      {
        ok := SendPiece(c, limits);
      }
      written := ok;
    }

    /** One write: at least one byte of the request reaches the host, or the call fails. */
    method SendPiece(c: ClientId, ghost limits: Limits) returns (ok: bool)
      requires Runs(c) && state.clients[c].phase == Exchanging && PartlySent(state, c)
      requires After(limits, LastBudget, Good) || After(limits, WritePiece, Good)
      modifies this
      ensures Runs(c) && state.clients[c] == old(state.clients[c]) && PartlySent(state, c)
      ensures ok ==> |state.connections[c].sent| > |old(state.connections[c].sent)|
      ensures After(limits, WritePiece, if ok then Good else Fault)
    {
      ok := CallWrite(c);
      Note(WritePiece, if ok then Good else Fault, 0, limits);
    }

    method CallWrite(c: ClientId) returns (ok: bool)
      requires Runs(c) && state.clients[c].phase == Exchanging && PartlySent(state, c)
      modifies this`state
      ensures Runs(c) && state.clients[c] == old(state.clients[c]) && PartlySent(state, c)
      ensures old(state.now) <= state.now
      ensures ok ==> |state.connections[c].sent| > |old(state.connections[c].sent)|
    {
      Interfere(c);
      var count: int := *;
      ok := count > 0 && Enabled(state, ClientStep(c, Write(count)));
      if ok {
        Perform(ClientStep(c, Write(count)));
      }
    }

    method AwaitReply(c: ClientId, ghost limits: Limits) returns (outcome: Outcome)
      requires Runs(c) && state.clients[c].phase == Exchanging && After(limits, WritePiece, Good)
      modifies this
      ensures Runs(c) && state.clients[c].phase == Done(outcome)
      ensures outcome.Uncertain? || outcome.Replied?
      ensures run.limits == limits && run.events != []
      ensures EndsClient(Last()) && ReportFits(outcome, Last())
    {
      var reply := TakeReply(c, limits);
      if reply.None? {
        FailExchange(c);
        return Uncertain;
      }
      outcome := Replied(reply.value);
      TakeReplyStep(c);
    }

    /** The reply, if it arrives complete and valid. */
    method TakeReply(c: ClientId, ghost limits: Limits) returns (reply: Option<Reply>)
      requires Runs(c) && After(limits, WritePiece, Good)
      modifies this`run
      ensures After(limits, ReplyRead, if reply.Some? then Good else Fault)
      ensures reply.Some? ==> ReplyIsThere(state, c) && reply == state.connections[c].reply
    {
      var arrived: bool := *;
      reply := if arrived && ReplyIsThere(state, c) then state.connections[c].reply else None;
      Note(ReplyRead, if reply.Some? then Good else Fault, 0, limits);
    }
  }
}

/** The command host of one endpoint as a step protocol over clients, host processes, two file locks,
the socket path and the connections.

Client `c` forwards one command. It connects, or elects itself under the start lock to spawn a host;
it then writes one framed request and waits for one reply. A host owns the endpoint while it has the
owner lock; it serves connections one at a time and one request per connection. Every process can
stop at any step. */
module HostProtocol {
  import opened Common
  import opened FrameReader

  type ClientId = nat
  type HostId = nat

  /** `Rejected` replies are built before the command body is called. */
  datatype Reply = Rejected | Executed

  datatype Outcome =
    | NotDelivered            // failure marked not_delivered
    | Unmarked                // failure before the connection phase, disposition left as it was
    | Uncertain               // failure of the exchange
    | Replied(reply: Reply)

  datatype ClientPhase =
    | FirstCheck
    | WaitingForStart
    | SecondCheck             // from here to Abandoning the start lock is held
    | ReadyToSpawn
    | Starting(child: HostId)
    | Abandoning(child: HostId)  // the child has been killed and reaped
    | Connected
    | Exchanging
    | Done(outcome: Outcome)
    | Crashed

  datatype Client = Client(payload: seq<Byte>, expires: nat, phase: ClientPhase)

  datatype HostPhase =
    | Booting
    | Owner                   // from here to Closing the owner lock is held
    | Clearing                // about to unlink the socket path
    | Bindable
    | Listening
    | Serving(c: ClientId)
    | Closing                 // listener closed, lock not yet released
    | Gone

  datatype Stage =
    | Queued
    | Reading
    | Framed                  // a complete in-limit frame was read
    | Prepared                // every check before dispatch has passed
    | Replying(reply: Reply)
    | Finished

  /** `sent` is what the client has written; `reply` is set once the reply is completely flushed. */
  datatype Connection = Connection(host: HostId, sent: seq<Byte>, closed: bool, stage: Stage, reply: Option<Reply>)

  datatype State = State(
    now: nat,
    clients: map<ClientId, Client>,
    hosts: map<HostId, HostPhase>,
    startLock: Option<ClientId>,
    ownerLock: Option<HostId>,
    path: Option<HostId>,                 // whose socket the path names
    connections: map<ClientId, Connection>,
    executed: seq<ClientId>
  )

  const MAX_REQUEST_BYTES: nat := 1_048_576

  datatype ClientAction =
    | NewClient(payload: seq<Byte>, expires: nat)
    | Refuse
    | Connect
    | ConnectLate
    | NoListener
    | TakeStart
    | SpawnHost(child: HostId)
    | KillChild
    | FailBeforeExchange
    | BeginExchange
    | Write(count: nat)
    | ExchangeFails
    | ReadReply
    | ClientCrash

  datatype HostAction =
    | TakeOwner
    | SeeSocket
    | SeeNoSocket
    | Unlink
    | Bind
    | Accept(c: ClientId)
    | ReadRequest
    | RejectFrame
    | RejectRequest
    | Prepare
    | Execute
    | SendReply
    | DropConnection
    | CloseListener
    | HostExit

  datatype Step = Tick(time: nat) | ClientStep(c: ClientId, act: ClientAction) | HostStep(h: HostId, move: HostAction)

  predicate HoldsStart(phase: ClientPhase) {
    phase.SecondCheck? || phase.ReadyToSpawn? || phase.Starting? || phase.Abandoning?
  }

  predicate HoldsOwner(phase: HostPhase) {
    phase.Owner? || phase.Clearing? || phase.Bindable? || phase.Listening? || phase.Serving? || phase.Closing?
  }

  predicate HasListener(phase: HostPhase) {
    phase.Listening? || phase.Serving?
  }

  /** A well-formed request as the client builds it: a line within the limit. */
  predicate IsPayload(payload: seq<Byte>) {
    IsRequest(payload, MAX_REQUEST_BYTES)
  }

  predicate Checking(phase: ClientPhase) {
    phase.FirstCheck? || phase.SecondCheck? || phase.Starting?
  }

  predicate BeforeExchange(phase: ClientPhase) {
    Checking(phase) || phase.WaitingForStart? || phase.ReadyToSpawn? || phase.Abandoning? || phase.Connected?
  }

  predicate At(s: State, c: ClientId, phase: ClientPhase) {
    c in s.clients && s.clients[c].phase == phase
  }

  predicate HostAt(s: State, h: HostId, phase: HostPhase) {
    h in s.hosts && s.hosts[h] == phase
  }

  predicate ListenerReachable(s: State) {
    s.path.Some? && s.path.value in s.hosts && HasListener(s.hosts[s.path.value])
  }

  /** The connection host `h` is serving, at a given stage. */
  predicate ServingAt(s: State, h: HostId, stage: Stage) {
    && h in s.hosts && s.hosts[h].Serving? && s.hosts[h].c in s.connections
    && s.connections[s.hosts[h].c].stage == stage
  }

  function Conn(s: State, h: HostId): Connection
    requires h in s.hosts && s.hosts[h].Serving? && s.hosts[h].c in s.connections
  {
    s.connections[s.hosts[h].c]
  }

  predicate CanConnect(s: State, c: ClientId) {
    c in s.clients && Checking(s.clients[c].phase) && ListenerReachable(s) && c !in s.connections
  }

  predicate EnabledClient(s: State, c: ClientId, act: ClientAction) {
    match act
    case NewClient(payload, _) => c !in s.clients && c !in s.connections && IsPayload(payload)
    case Refuse => At(s, c, FirstCheck)
    case Connect => CanConnect(s, c)
    case ConnectLate => CanConnect(s, c)
    case NoListener => c in s.clients && (s.clients[c].phase.FirstCheck? || s.clients[c].phase.SecondCheck?)
    case TakeStart => At(s, c, WaitingForStart) && s.startLock.None?
    case SpawnHost(h) => At(s, c, ReadyToSpawn) && h !in s.hosts
    case KillChild => c in s.clients && s.clients[c].phase.Starting?
    case FailBeforeExchange => c in s.clients && BeforeExchange(s.clients[c].phase) && !s.clients[c].phase.Starting?
    case BeginExchange => At(s, c, Connected) && s.now < s.clients[c].expires
    case Write(count) =>
      && At(s, c, Exchanging) && c in s.connections && !s.connections[c].closed
      && |s.connections[c].sent| + count <= |s.clients[c].payload|
    case ExchangeFails => At(s, c, Exchanging)
    case ReadReply =>
      && At(s, c, Exchanging) && c in s.connections && s.connections[c].reply.Some?
      && s.connections[c].sent == s.clients[c].payload
    case ClientCrash => c in s.clients
  }

  predicate EnabledHost(s: State, h: HostId, move: HostAction) {
    match move
    case TakeOwner => HostAt(s, h, Booting) && s.ownerLock.None?
    case SeeSocket => HostAt(s, h, Owner) && s.path.Some?
    case SeeNoSocket => HostAt(s, h, Owner) && s.path.None?
    case Unlink => HostAt(s, h, Clearing)
    case Bind => HostAt(s, h, Bindable) && s.path.None?
    case Accept(c) =>
      HostAt(s, h, Listening) && c in s.connections && s.connections[c].host == h && s.connections[c].stage.Queued?
    case ReadRequest =>
      ServingAt(s, h, Reading) && IsRequest(FrameOf(Conn(s, h).sent, MAX_REQUEST_BYTES), MAX_REQUEST_BYTES)
    case RejectFrame =>
      && ServingAt(s, h, Reading) && FrameOf(Conn(s, h).sent, MAX_REQUEST_BYTES) != []
      && (Conn(s, h).closed || |FrameOf(Conn(s, h).sent, MAX_REQUEST_BYTES)| > MAX_REQUEST_BYTES)
      && !IsRequest(FrameOf(Conn(s, h).sent, MAX_REQUEST_BYTES), MAX_REQUEST_BYTES)
    case RejectRequest => ServingAt(s, h, Framed) || ServingAt(s, h, Prepared)
    case Prepare =>
      ServingAt(s, h, Framed) && s.hosts[h].c in s.clients && s.now < s.clients[s.hosts[h].c].expires
    case Execute => ServingAt(s, h, Prepared)
    case SendReply => h in s.hosts && s.hosts[h].Serving? && s.hosts[h].c in s.connections && Conn(s, h).stage.Replying?
    case DropConnection => h in s.hosts && s.hosts[h].Serving? && s.hosts[h].c in s.connections
    case CloseListener => HostAt(s, h, Listening)
    case HostExit => h in s.hosts && !s.hosts[h].Gone?
  }

  predicate Enabled(s: State, step: Step) {
    match step
    case Tick(time) => s.now <= time
    case ClientStep(c, act) => EnabledClient(s, c, act)
    case HostStep(h, move) => EnabledHost(s, h, move)
  }

  function SetClient(s: State, c: ClientId, phase: ClientPhase): State
    requires c in s.clients
  {
    s.(clients := s.clients[c := s.clients[c].(phase := phase)],
       startLock := if s.startLock == Some(c) && !HoldsStart(phase) then None else s.startLock)
  }

  function SetHost(s: State, h: HostId, phase: HostPhase): State {
    s.(hosts := s.hosts[h := phase],
       ownerLock := if s.ownerLock == Some(h) && !HoldsOwner(phase) then None else s.ownerLock)
  }

  function SetStage(s: State, c: ClientId, stage: Stage): State
    requires c in s.connections
  {
    s.(connections := s.connections[c := s.connections[c].(stage := stage)])
  }

  /** The client's end of its connection, if it has one, is closed. */
  function CloseStream(s: State, c: ClientId): State {
    if c in s.connections then s.(connections := s.connections[c := s.connections[c].(closed := true)]) else s
  }

  function ApplyClient(s: State, c: ClientId, act: ClientAction): State
    requires EnabledClient(s, c, act)
  {
    match act
    case NewClient(payload, expires) => s.(clients := s.clients[c := Client(payload, expires, FirstCheck)])
    case Refuse => SetClient(s, c, Done(Unmarked))
    case Connect =>
      SetClient(s, c, Connected).(connections := s.connections[c := Connection(s.path.value, [], false, Queued, None)])
    case ConnectLate =>
      s.(connections := s.connections[c := Connection(s.path.value, [], true, Queued, None)])
    case NoListener => SetClient(s, c, if s.clients[c].phase.FirstCheck? then WaitingForStart else ReadyToSpawn)
    case TakeStart => SetClient(s, c, SecondCheck).(startLock := Some(c))
    case SpawnHost(h) => SetHost(SetClient(s, c, Starting(h)), h, Booting)
    case KillChild =>
      var child := s.clients[c].phase.child;
      SetHost(SetClient(s, c, Abandoning(child)), child, Gone)
    case FailBeforeExchange => CloseStream(SetClient(s, c, Done(NotDelivered)), c)
    case BeginExchange => SetClient(s, c, Exchanging)
    case Write(count) =>
      var sent := s.connections[c].sent;
      s.(connections := s.connections[c := s.connections[c].(sent := s.clients[c].payload[..|sent| + count])])
    case ExchangeFails => CloseStream(SetClient(s, c, Done(Uncertain)), c)
    case ReadReply => CloseStream(SetClient(s, c, Done(Replied(s.connections[c].reply.value))), c)
    case ClientCrash =>
      CloseStream(SetClient(s, c, if s.clients[c].phase.Done? then s.clients[c].phase else Crashed), c)
  }

  function ApplyHost(s: State, h: HostId, move: HostAction): State
    requires EnabledHost(s, h, move)
  {
    match move
    case TakeOwner => SetHost(s, h, Owner).(ownerLock := Some(h))
    case SeeSocket => SetHost(s, h, Clearing)
    case SeeNoSocket => SetHost(s, h, Bindable)
    case Unlink => SetHost(s, h, Bindable).(path := None)
    case Bind => SetHost(s, h, Listening).(path := Some(h))
    case Accept(c) => SetStage(SetHost(s, h, Serving(c)), c, Reading)
    case ReadRequest => SetStage(s, s.hosts[h].c, Framed)
    case RejectFrame => SetStage(s, s.hosts[h].c, Replying(Rejected))
    case RejectRequest => SetStage(s, s.hosts[h].c, Replying(Rejected))
    case Prepare => SetStage(s, s.hosts[h].c, Prepared)
    case Execute => SetStage(s, s.hosts[h].c, Replying(Executed)).(executed := s.executed + [s.hosts[h].c])
    case SendReply =>
      var c := s.hosts[h].c;
      var k := s.connections[c];
      SetHost(s, h, Listening).(
      connections := s.connections[c := k.(stage := Finished, reply := Some(k.stage.reply))])
    case DropConnection => SetStage(SetHost(s, h, Listening), s.hosts[h].c, Finished)
    case CloseListener => SetHost(s, h, Closing)
    case HostExit => SetHost(s, h, Gone)
  }

  function Apply(s: State, step: Step): State
    requires Enabled(s, step)
  {
    match step
    case Tick(time) => s.(now := time)
    case ClientStep(c, act) => ApplyClient(s, c, act)
    case HostStep(h, move) => ApplyHost(s, h, move)
  }

  ghost predicate Next(s: State, s': State) {
    exists step :: Enabled(s, step) && s' == Apply(s, step)
  }

  /** No client, no live host; a stale socket of an earlier host may be left at the path. */
  ghost predicate Initial(s: State) {
    && s.clients == map[] && s.connections == map[] && s.executed == []
    && s.startLock.None? && s.ownerLock.None?
    && forall h :: h in s.hosts ==> s.hosts[h].Gone?
  }

  ghost predicate IsRun(run: seq<State>) {
    && |run| > 0 && Initial(run[0])
    && forall i :: 0 < i < |run| ==> Next(run[i - 1], run[i])
  }

  ghost predicate Reachable(s: State) {
    exists run :: IsRun(run) && run[|run| - 1] == s
  }

  // ---------------------------------------------------------------- the inductive invariant

  ghost predicate StartIsMutex(s: State) {
    && (forall c :: c in s.clients && HoldsStart(s.clients[c].phase) ==> s.startLock == Some(c))
    && (s.startLock.Some? ==> s.startLock.value in s.clients && HoldsStart(s.clients[s.startLock.value].phase))
  }

  ghost predicate OwnerIsMutex(s: State) {
    && (forall h :: h in s.hosts && HoldsOwner(s.hosts[h]) ==> s.ownerLock == Some(h))
    && (s.ownerLock.Some? ==> s.ownerLock.value in s.hosts && HoldsOwner(s.hosts[s.ownerLock.value]))
  }

  ghost predicate ListenerOwnsPath(s: State) {
    && (forall h :: h in s.hosts && HasListener(s.hosts[h]) ==> s.path == Some(h))
    && (forall h :: h in s.hosts && s.hosts[h].Bindable? ==> s.path.None?)
  }

  /** What the stage of a connection says about its client and about the execution log. */
  ghost predicate ConnectionOk(s: State, c: ClientId)
    requires c in s.connections
  {
    var k := s.connections[c];
    && c in s.clients && (BeforeConnection(s.clients[c].phase) ==> k.closed)
    && k.sent <= s.clients[c].payload
    && (Quiet(s.clients[c].phase) ==> k.sent == [])
    && (PastFrame(k.stage) ==> k.sent == s.clients[c].payload)
    && (c in s.executed ==> k.stage == Replying(Executed) || k.stage == Finished)
    && (k.stage == Replying(Executed) || k.reply == Some(Executed) ==> c in s.executed)
    && (k.reply.Some? ==> k.stage.Finished?)
    && (k.reply == Some(Rejected) ==> c !in s.executed)
  }

  predicate BeforeConnection(phase: ClientPhase) {
    BeforeExchange(phase) && !phase.Connected?
  }

  /** Phases in which the client has written nothing yet, or nothing at all. */
  predicate Quiet(phase: ClientPhase) {
    BeforeExchange(phase) || phase == Done(NotDelivered) || phase == Done(Unmarked)
  }

  predicate PastFrame(stage: Stage) {
    stage.Framed? || stage.Prepared? || stage == Replying(Executed)
  }

  ghost predicate ConnectionsOk(s: State) {
    && (forall c :: c in s.connections ==> ConnectionOk(s, c))
    && (forall c :: c in s.clients ==> IsPayload(s.clients[c].payload))
  }

  ghost predicate LogOk(s: State) {
    && (forall i :: 0 <= i < |s.executed| ==> s.executed[i] in s.connections && s.executed[i] in s.clients)
    && (forall i, j :: 0 <= i < j < |s.executed| ==> s.executed[i] != s.executed[j])
    && (forall c :: c in s.executed ==> c in s.connections && s.connections[c].sent == s.clients[c].payload)
  }

  ghost predicate OutcomeOk(s: State, c: ClientId)
    requires c in s.clients
  {
    var phase := s.clients[c].phase;
    && (phase.Connected? || phase.Exchanging? ==> c in s.connections)
    && (phase == Done(Replied(Executed)) ==> c in s.executed)
    && (phase == Done(Replied(Rejected)) ==> c in s.connections && s.connections[c].reply == Some(Rejected))
  }

  ghost predicate OutcomesOk(s: State) {
    forall c :: c in s.clients ==> OutcomeOk(s, c)
  }

  /** A child that was started is known, and one that was killed is gone. */
  ghost predicate ChildOk(s: State, c: ClientId)
    requires c in s.clients
  {
    && (s.clients[c].phase.Starting? ==> s.clients[c].phase.child in s.hosts)
    && (s.clients[c].phase.Abandoning? ==>
          s.clients[c].phase.child in s.hosts && s.hosts[s.clients[c].phase.child].Gone?)
  }

  ghost predicate ChildrenKnown(s: State) {
    forall c :: c in s.clients ==> ChildOk(s, c)
  }

  ghost predicate Inv(s: State) {
    && StartIsMutex(s) && OwnerIsMutex(s) && ListenerOwnsPath(s)
    && ConnectionsOk(s) && LogOk(s) && OutcomesOk(s) && ChildrenKnown(s)
  }

  lemma InitialInv(s: State)
    requires Initial(s)
    ensures Inv(s)
  {
  }

  // ---------------------------------------------------------------- what a step leaves alone

  /** A host's step touches no client and not the start lock. */
  lemma HostLeavesClients(s: State, h: HostId, move: HostAction)
    requires EnabledHost(s, h, move)
    ensures var s' := ApplyHost(s, h, move);
            s'.clients == s.clients && s'.startLock == s.startLock && s'.now == s.now && s.executed <= s'.executed
  {
  }

  /** What a host leaves of a connection. */
  lemma HostLeavesConnection(s: State, h: HostId, move: HostAction, c: ClientId)
    requires EnabledHost(s, h, move) && c in s.connections
    ensures var s' := ApplyHost(s, h, move);
            && c in s'.connections && s'.connections.Keys == s.connections.Keys
            && s'.connections[c].sent == s.connections[c].sent && s'.connections[c].closed == s.connections[c].closed
            && (s.connections[c].stage.Finished? ==> s'.connections[c].reply == s.connections[c].reply)
            && (s.hosts[h] != Serving(c) && s.hosts[h] != Listening ==> s'.connections[c] == s.connections[c])
  {
  }

  /** A client's step touches neither another client, nor its connection, nor the log, nor the path. */
  lemma ClientLeavesOthers(s: State, c: ClientId, act: ClientAction, d: ClientId)
    requires EnabledClient(s, c, act) && c != d
    ensures var s' := ApplyClient(s, c, act);
            && (d in s'.clients <==> d in s.clients) && (d in s.clients ==> s'.clients[d] == s.clients[d])
            && (d in s'.connections <==> d in s.connections)
            && (d in s.connections ==> s'.connections[d] == s.connections[d])
  {
  }

  lemma ClientLeavesHosts(s: State, c: ClientId, act: ClientAction)
    requires EnabledClient(s, c, act)
    ensures var s' := ApplyClient(s, c, act);
            && s'.executed == s.executed && s'.now == s.now && s'.path == s.path
            && (!act.SpawnHost? && !act.KillChild? ==> s'.hosts == s.hosts && s'.ownerLock == s.ownerLock)
  {
  }

  // ---------------------------------------------------------------- the steps keep the invariant

  lemma StartStep(s: State, step: Step)
    requires StartIsMutex(s) && Enabled(s, step)
    ensures StartIsMutex(Apply(s, step))
  {
    match step
    case Tick(_) =>
    case HostStep(h, move) => HostLeavesClients(s, h, move);
    case ClientStep(c, act) => StartClientStep(s, c, act);
  }

  lemma StartClientStep(s: State, c: ClientId, act: ClientAction)
    requires StartIsMutex(s) && EnabledClient(s, c, act)
    ensures StartIsMutex(ApplyClient(s, c, act))
  {
  }

  /** A host that is gone stays gone. */
  lemma GoneStays(s: State, step: Step, h: HostId)
    requires Enabled(s, step) && h in s.hosts
    ensures h in Apply(s, step).hosts && (s.hosts[h].Gone? ==> Apply(s, step).hosts[h].Gone?)
  {
    match step
    case Tick(_) =>
    case HostStep(k, move) => GoneStaysHost(s, k, move, h);
    case ClientStep(c, act) => GoneStaysClient(s, c, act, h);
  }

  lemma GoneStaysHost(s: State, k: HostId, move: HostAction, h: HostId)
    requires EnabledHost(s, k, move) && h in s.hosts
    ensures h in ApplyHost(s, k, move).hosts && (s.hosts[h].Gone? ==> ApplyHost(s, k, move).hosts[h].Gone?)
  {
  }

  lemma GoneStaysClient(s: State, c: ClientId, act: ClientAction, h: HostId)
    requires EnabledClient(s, c, act) && h in s.hosts
    ensures h in ApplyClient(s, c, act).hosts && (s.hosts[h].Gone? ==> ApplyClient(s, c, act).hosts[h].Gone?)
  {
  }

  lemma ChildrenStep(s: State, step: Step)
    requires ChildrenKnown(s) && Enabled(s, step)
    ensures ChildrenKnown(Apply(s, step))
  {
    forall c | c in Apply(s, step).clients
      ensures ChildOk(Apply(s, step), c)
    {
      ChildStep(s, step, c);
    }
  }

  lemma ChildStep(s: State, step: Step, c: ClientId)
    requires ChildrenKnown(s) && Enabled(s, step) && c in Apply(s, step).clients
    ensures ChildOk(Apply(s, step), c)
  {
    if step.ClientStep? && step.c == c {
      ChildOwnStep(s, c, step.act);
    } else {
      ClientStays(s, step, c);
      assert ChildOk(s, c);
      var phase := s.clients[c].phase;
      if phase.Starting? || phase.Abandoning? {
        GoneStays(s, step, phase.child);
      }
    }
  }

  lemma ChildOwnStep(s: State, c: ClientId, act: ClientAction)
    requires c in s.clients ==> ChildOk(s, c)
    requires EnabledClient(s, c, act)
    ensures c in ApplyClient(s, c, act).clients && ChildOk(ApplyClient(s, c, act), c)
  {
  }

  /** Nobody but the client itself changes its record. */
  lemma ClientStays(s: State, step: Step, c: ClientId)
    requires Enabled(s, step) && !(step.ClientStep? && step.c == c) && c in Apply(s, step).clients
    ensures c in s.clients && Apply(s, step).clients[c] == s.clients[c]
  {
    match step
    case Tick(_) =>
    case HostStep(h, move) => HostLeavesClients(s, h, move);
    case ClientStep(d, act) => ClientLeavesOthers(s, d, act, c);
  }

  lemma OwnerStep(s: State, step: Step)
    requires OwnerIsMutex(s) && ChildrenKnown(s) && Enabled(s, step)
    ensures OwnerIsMutex(Apply(s, step))
  {
    match step
    case Tick(_) =>
    case HostStep(h, move) => OwnerHostStep(s, h, move);
    case ClientStep(c, act) => ClientLeavesHosts(s, c, act);
  }

  lemma OwnerHostStep(s: State, h: HostId, move: HostAction)
    requires OwnerIsMutex(s) && EnabledHost(s, h, move)
    ensures OwnerIsMutex(ApplyHost(s, h, move))
  {
  }

  lemma PathStep(s: State, step: Step)
    requires OwnerIsMutex(s) && ListenerOwnsPath(s) && ChildrenKnown(s) && Enabled(s, step)
    ensures ListenerOwnsPath(Apply(s, step))
  {
    match step
    case Tick(_) =>
    case HostStep(h, move) => PathHostStep(s, h, move);
    case ClientStep(c, act) => ClientLeavesHosts(s, c, act);
  }

  lemma PathHostStep(s: State, h: HostId, move: HostAction)
    requires OwnerIsMutex(s) && ListenerOwnsPath(s) && EnabledHost(s, h, move)
    ensures ListenerOwnsPath(ApplyHost(s, h, move))
  {
  }

  /** A payload has its only newline at its end, so a prefix that reads as a request is all of it. */
  lemma RequestIsWholePayload(payload: seq<Byte>, sent: seq<Byte>)
    requires IsPayload(payload) && sent <= payload
    requires IsRequest(FrameOf(sent, MAX_REQUEST_BYTES), MAX_REQUEST_BYTES)
    ensures sent == payload && FrameOf(sent, MAX_REQUEST_BYTES) == payload
  {
    FrameShape(sent, MAX_REQUEST_BYTES);
    var f := FrameOf(sent, MAX_REQUEST_BYTES);
    assert f[|f| - 1] == payload[|f| - 1];
  }

  lemma HostStepConnection(s: State, h: HostId, move: HostAction, c: ClientId)
    requires ConnectionsOk(s) && LogOk(s) && EnabledHost(s, h, move) && c in s.connections
    ensures c in ApplyHost(s, h, move).connections && ConnectionOk(ApplyHost(s, h, move), c)
  {
    assert ConnectionOk(s, c);
    if s.hosts[h] == Serving(c) || s.hosts[h] == Listening {
      ServedConnection(s, h, move, c);
    } else {
      HostLeavesClients(s, h, move);
      HostLeavesConnection(s, h, move, c);
      LogGrows(s, HostStep(h, move));
      SameConnection(s, ApplyHost(s, h, move), c);
    }
  }

  lemma ServedConnection(s: State, h: HostId, move: HostAction, c: ClientId)
    requires ConnectionsOk(s) && LogOk(s) && EnabledHost(s, h, move) && c in s.connections
    requires s.hosts[h] == Serving(c) || s.hosts[h] == Listening
    ensures c in ApplyHost(s, h, move).connections && ConnectionOk(ApplyHost(s, h, move), c)
  {
    assert ConnectionOk(s, c);
    if move.ReadRequest? && c == s.hosts[h].c {
      RequestIsWholePayload(s.clients[c].payload, s.connections[c].sent);
    }
  }

  lemma SameConnection(s: State, s': State, c: ClientId)
    requires c in s.connections && ConnectionOk(s, c)
    requires c in s'.clients && s'.clients[c] == s.clients[c]
    requires c in s'.connections && s'.connections[c] == s.connections[c]
    requires c in s'.executed <==> c in s.executed
    ensures ConnectionOk(s', c)
  {
  }

  lemma OwnStepConnection(s: State, c: ClientId, act: ClientAction)
    requires c in s.connections && ConnectionOk(s, c) && EnabledClient(s, c, act)
    ensures c in ApplyClient(s, c, act).connections && ConnectionOk(ApplyClient(s, c, act), c)
  {
    match act
    case Write(count) => assert s.connections[c].sent <= s.clients[c].payload[..|s.connections[c].sent| + count];
    case _ =>
  }

  lemma NewConnection(s: State, c: ClientId, act: ClientAction)
    requires LogOk(s) && EnabledClient(s, c, act) && c !in s.connections && c in ApplyClient(s, c, act).connections
    ensures ConnectionOk(ApplyClient(s, c, act), c)
  {
  }

  lemma ConnectionStep(s: State, step: Step, c: ClientId)
    requires ConnectionsOk(s) && LogOk(s) && Enabled(s, step) && c in Apply(s, step).connections
    ensures ConnectionOk(Apply(s, step), c)
  {
    assert c in s.connections ==> ConnectionOk(s, c);
    match step
    case Tick(_) =>
    case HostStep(h, move) => HostStepConnection(s, h, move, c);
    case ClientStep(d, act) =>
      ClientLeavesHosts(s, d, act);
      if d != c {
        ClientLeavesOthers(s, d, act, c);
        SameConnection(s, Apply(s, step), c);
      } else if c in s.connections {
        OwnStepConnection(s, c, act);
      } else {
        NewConnection(s, c, act);
      }
  }

  /** The payload of a client is fixed when it arrives. */
  lemma PayloadStays(s: State, step: Step, c: ClientId)
    requires Enabled(s, step) && c in s.clients
    ensures c in Apply(s, step).clients && Apply(s, step).clients[c].payload == s.clients[c].payload
  {
    match step
    case Tick(_) =>
    case HostStep(h, move) => HostLeavesClients(s, h, move);
    case ClientStep(_, _) =>
  }

  lemma ConnectionsStep(s: State, step: Step)
    requires ConnectionsOk(s) && LogOk(s) && Enabled(s, step)
    ensures ConnectionsOk(Apply(s, step))
  {
    var s' := Apply(s, step);
    forall c | c in s'.connections
      ensures ConnectionOk(s', c)
    {
      ConnectionStep(s, step, c);
    }
    forall c | c in s'.clients
      ensures IsPayload(s'.clients[c].payload)
    {
      if c in s.clients {
        PayloadStays(s, step, c);
      } else {
        Arrives(s, step, c);
      }
    }
  }

  lemma Arrives(s: State, step: Step, c: ClientId)
    requires Enabled(s, step) && c !in s.clients && c in Apply(s, step).clients
    ensures step.ClientStep? && step.c == c && step.act.NewClient?
    ensures Apply(s, step).clients[c] == Client(step.act.payload, step.act.expires, FirstCheck)
  {
    match step
    case Tick(_) =>
    case HostStep(h, move) => HostLeavesClients(s, h, move);
    case ClientStep(d, act) =>
      if d != c {
        ClientLeavesOthers(s, d, act, c);
      }
  }

  /** Only `Execute` extends the log, and only with a client that is not in it. */
  lemma LogGrows(s: State, step: Step)
    requires ConnectionsOk(s) && LogOk(s) && Enabled(s, step)
    ensures var s' := Apply(s, step);
            || s'.executed == s.executed
            || (step.HostStep? && ServingAt(s, step.h, Prepared) && s.hosts[step.h].c !in s.executed
                && s'.executed == s.executed + [s.hosts[step.h].c])
  {
    match step
    case Tick(_) =>
    case HostStep(h, move) =>
      if move.Execute? {
        assert ConnectionOk(s, s.hosts[h].c);
      }
    case ClientStep(c, act) => ClientLeavesHosts(s, c, act);
  }

  lemma LogStep(s: State, step: Step)
    requires ConnectionsOk(s) && LogOk(s) && Enabled(s, step)
    ensures LogOk(Apply(s, step))
  {
    var s' := Apply(s, step);
    LogGrows(s, step);
    forall c | c in s'.executed
      ensures c in s'.connections && c in s'.clients && s'.connections[c].sent == s'.clients[c].payload
    {
      assert c in s.connections && ConnectionOk(s, c);
      WholeSentStays(s, step, c);
    }
  }

  lemma WholeSentStays(s: State, step: Step, c: ClientId)
    requires c in s.connections && ConnectionOk(s, c) && s.connections[c].sent == s.clients[c].payload
    requires Enabled(s, step)
    ensures var s' := Apply(s, step);
            c in s'.connections && c in s'.clients && s'.connections[c].sent == s'.clients[c].payload
  {
    match step
    case Tick(_) =>
    case HostStep(h, move) =>
      HostLeavesClients(s, h, move);
      HostLeavesConnection(s, h, move, c);
    case ClientStep(d, act) =>
      if d == c {
        WholeSentOwn(s, c, act);
      } else {
        ClientLeavesOthers(s, d, act, c);
      }
  }

  lemma WholeSentOwn(s: State, c: ClientId, act: ClientAction)
    requires c in s.connections && ConnectionOk(s, c) && s.connections[c].sent == s.clients[c].payload
    requires EnabledClient(s, c, act)
    ensures var s' := ApplyClient(s, c, act);
            c in s'.connections && c in s'.clients && s'.connections[c].sent == s'.clients[c].payload
  {
  }

  lemma OutcomeStep(s: State, step: Step, c: ClientId)
    requires ConnectionsOk(s) && LogOk(s) && OutcomesOk(s) && Enabled(s, step) && c in Apply(s, step).clients
    ensures OutcomeOk(Apply(s, step), c)
  {
    assert c in s.clients ==> OutcomeOk(s, c);
    match step
    case Tick(_) =>
    case HostStep(h, move) => OutcomeHostStep(s, h, move, c);
    case ClientStep(d, act) =>
      ClientLeavesHosts(s, d, act);
      if d == c {
        OutcomeOwnStep(s, c, act);
      } else {
        ClientLeavesOthers(s, d, act, c);
      }
  }

  lemma OutcomeHostStep(s: State, h: HostId, move: HostAction, c: ClientId)
    requires ConnectionsOk(s) && OutcomesOk(s) && EnabledHost(s, h, move) && c in s.clients
    ensures c in ApplyHost(s, h, move).clients && OutcomeOk(ApplyHost(s, h, move), c)
  {
    assert OutcomeOk(s, c);
    HostLeavesClients(s, h, move);
    if c in s.connections {
      assert ConnectionOk(s, c);
      HostLeavesConnection(s, h, move, c);
    }
    SameOutcome(s, ApplyHost(s, h, move), c);
  }

  lemma SameOutcome(s: State, s': State, c: ClientId)
    requires c in s.clients && OutcomeOk(s, c) && (c in s.connections ==> ConnectionOk(s, c) && c in s'.connections)
    requires c in s'.clients && s'.clients[c] == s.clients[c] && s.executed <= s'.executed
    requires c in s.connections && s.connections[c].stage.Finished? ==>
               s'.connections[c].reply == s.connections[c].reply
    ensures OutcomeOk(s', c)
  {
    assert forall i :: 0 <= i < |s.executed| ==> s.executed[i] == s'.executed[i];
  }

  lemma OutcomeOwnStep(s: State, c: ClientId, act: ClientAction)
    requires ConnectionsOk(s) && OutcomesOk(s) && EnabledClient(s, c, act) && c in ApplyClient(s, c, act).clients
    ensures OutcomeOk(ApplyClient(s, c, act), c)
  {
    assert c in s.clients ==> OutcomeOk(s, c);
    assert c in s.connections ==> ConnectionOk(s, c);
  }

  lemma OutcomesStep(s: State, step: Step)
    requires ConnectionsOk(s) && LogOk(s) && OutcomesOk(s) && Enabled(s, step)
    ensures OutcomesOk(Apply(s, step))
  {
    forall c | c in Apply(s, step).clients
      ensures OutcomeOk(Apply(s, step), c)
    {
      OutcomeStep(s, step, c);
    }
  }

  lemma StepInv(s: State, step: Step)
    requires Inv(s) && Enabled(s, step)
    ensures Inv(Apply(s, step))
  {
    StartStep(s, step);
    ChildrenStep(s, step);
    OwnerStep(s, step);
    PathStep(s, step);
    ConnectionsStep(s, step);
    LogStep(s, step);
    OutcomesStep(s, step);
  }

  lemma NextInv(s: State, s': State)
    requires Inv(s) && Next(s, s')
    ensures Inv(s')
  {
    var step :| Enabled(s, step) && s' == Apply(s, step);
    StepInv(s, step);
  }

  lemma {:induction false} RunInv(run: seq<State>)
    requires IsRun(run)
    ensures Inv(run[|run| - 1])
    decreases |run|
  {
    if |run| == 1 {
      InitialInv(run[0]);
    } else {
      RunInv(run[..|run| - 1]);
      NextInv(run[|run| - 2], run[|run| - 1]);
    }
  }

  lemma ReachableInv(s: State)
    requires Reachable(s)
    ensures Inv(s)
  {
    var run :| IsRun(run) && run[|run| - 1] == s;
    RunInv(run);
  }

  lemma ReachableStep(s: State, step: Step)
    requires Reachable(s) && Enabled(s, step)
    ensures Reachable(Apply(s, step))
  {
    var run :| IsRun(run) && run[|run| - 1] == s;
    var longer := run + [Apply(s, step)];
    assert Next(longer[|run| - 1], longer[|run|]);
    forall i | 0 < i < |longer|
      ensures Next(longer[i - 1], longer[i])
    {
      if i < |run| {
        assert Next(run[i - 1], run[i]);
      }
    }
    assert IsRun(longer) && longer[|longer| - 1] == Apply(s, step);
  }

  // ---------------------------------------------------------------- what every reachable state satisfies

  /** At most one host listens, and the socket path names its socket: whoever connects, connects to it. */
  lemma OneListener(s: State, h: HostId, k: HostId)
    requires Reachable(s) && h in s.hosts && k in s.hosts && HasListener(s.hosts[h])
    ensures s.path == Some(h) && s.ownerLock == Some(h)
    ensures HoldsOwner(s.hosts[k]) ==> h == k
  {
    ReachableInv(s);
  }

  /** A host about to unlink or bind the path does so while no host at all is listening. */
  lemma UnlinkIsSafe(s: State, h: HostId, k: HostId)
    requires Reachable(s) && h in s.hosts && k in s.hosts
    requires s.hosts[h].Clearing? || s.hosts[h].Bindable?
    ensures !HasListener(s.hosts[k])
    ensures s.hosts[h].Bindable? ==> Enabled(s, HostStep(h, Bind))
  {
    ReachableInv(s);
  }

  /** One client at a time is between its second connect check and the end of its startup attempt; it gives up
  only before it started a child or after that child is gone, and a child that is gone never comes back. */
  lemma OneStarter(s: State, c: ClientId, d: ClientId)
    requires Reachable(s) && c in s.clients && d in s.clients
    requires HoldsStart(s.clients[c].phase) && HoldsStart(s.clients[d].phase)
    ensures c == d
    ensures s.clients[c].phase.Starting? ==> s.clients[c].phase.child in s.hosts
    ensures s.clients[c].phase.Abandoning? ==>
              s.clients[c].phase.child in s.hosts && s.hosts[s.clients[c].phase.child].Gone?
    ensures Enabled(s, ClientStep(c, FailBeforeExchange)) ==>
              s.clients[c].phase.SecondCheck? || s.clients[c].phase.ReadyToSpawn? || s.clients[c].phase.Abandoning?
  {
    ReachableInv(s);
    assert ChildOk(s, c);
  }

  /** A child is left only by connecting, by being killed first, or by its client's crash. */
  lemma ChildIsNotForgotten(s: State, step: Step, c: ClientId)
    requires Reachable(s) && Enabled(s, step) && c in s.clients && s.clients[c].phase.Starting?
    ensures var s', child := Apply(s, step), s.clients[c].phase.child;
            && c in s'.clients && child in s'.hosts
            && (s'.clients[c].phase == s.clients[c].phase
                || s'.clients[c].phase.Connected? || s'.clients[c].phase.Crashed?
                || (s'.clients[c].phase == Abandoning(child) && s'.hosts[child].Gone?))
  {
    ReachableInv(s);
    assert ChildOk(s, c);
    GoneStays(s, step, s.clients[c].phase.child);
    match step
    case Tick(_) =>
    case HostStep(h, move) => HostLeavesClients(s, h, move);
    case ClientStep(d, act) =>
      if d != c {
        ClientLeavesOthers(s, d, act, c);
      }
  }

  /** Each forwarded command is executed at most once, and only from its complete request. */
  lemma AtMostOnce(s: State)
    requires Reachable(s)
    ensures forall i, j :: 0 <= i < j < |s.executed| ==> s.executed[i] != s.executed[j]
    ensures forall c :: c in s.executed ==>
              && c in s.clients && c in s.connections
              && FrameOf(s.connections[c].sent, MAX_REQUEST_BYTES) == s.clients[c].payload
  {
    ReachableInv(s);
    forall c | c in s.executed
      ensures && c in s.clients && c in s.connections
              && FrameOf(s.connections[c].sent, MAX_REQUEST_BYTES) == s.clients[c].payload
    {
      var payload := s.clients[c].payload;
      FrameUnique(payload, MAX_REQUEST_BYTES, |payload|);
    }
  }

  /** What the client reports is honest: a failure marked not_delivered, or one raised before connecting,
  means the command was not executed; a reply built before dispatch means the same; a success reply of a
  run command means it was executed. So an executed command is reported as such, as uncertain, or its
  client is still waiting or dead. */
  lemma HonestOutcome(s: State, c: ClientId)
    requires Reachable(s) && c in s.clients
    ensures s.clients[c].phase == Done(NotDelivered) ==> c !in s.executed
    ensures s.clients[c].phase == Done(Unmarked) ==> c !in s.executed
    ensures s.clients[c].phase == Done(Replied(Rejected)) ==> c !in s.executed
    ensures s.clients[c].phase == Done(Replied(Executed)) ==> c in s.executed
    ensures c in s.executed ==>
              || s.clients[c].phase == Exchanging
              || s.clients[c].phase == Done(Uncertain)
              || s.clients[c].phase == Done(Replied(Executed))
              || s.clients[c].phase == Crashed
  {
    ReachableInv(s);
    assert OutcomeOk(s, c);
    if c in s.executed {
      assert ConnectionOk(s, c);
      assert s.connections[c].sent == s.clients[c].payload && IsPayload(s.clients[c].payload);
      match s.clients[c].phase
      case Done(Replied(reply)) => assert reply == Rejected || reply == Executed;
      case Done(_) =>
      case _ =>
    } else if c in s.connections {
      assert ConnectionOk(s, c);
    }
  }

  /** An outcome once reported never changes, so `HonestOutcome` holds of the whole future: a command
  reported not_delivered is never executed later. */
  lemma {:induction false} OutcomeIsFinal(run: seq<State>, c: ClientId)
    requires |run| > 0 && (forall i :: 0 < i < |run| ==> Next(run[i - 1], run[i]))
    requires Reachable(run[0]) && c in run[0].clients && run[0].clients[c].phase.Done?
    ensures var last := run[|run| - 1];
            && Reachable(last) && c in last.clients && last.clients[c].phase == run[0].clients[c].phase
            && (run[0].clients[c].phase == Done(NotDelivered) ==> c !in last.executed)
    decreases |run|
  {
    if |run| > 1 {
      var n := |run| - 1;
      OutcomeIsFinal(run[..n], c);
      DoneStaysNext(run[n - 1], run[n], c);
    }
    HonestOutcome(run[|run| - 1], c);
  }

  lemma DoneStaysNext(s: State, s': State, c: ClientId)
    requires Reachable(s) && Next(s, s') && c in s.clients && s.clients[c].phase.Done?
    ensures Reachable(s') && c in s'.clients && s'.clients[c] == s.clients[c]
  {
    var step :| Enabled(s, step) && s' == Apply(s, step);
    DoneStays(s, step, c);
    ReachableStep(s, step);
  }

  lemma DoneStays(s: State, step: Step, c: ClientId)
    requires Enabled(s, step) && c in s.clients && s.clients[c].phase.Done?
    ensures c in Apply(s, step).clients && Apply(s, step).clients[c] == s.clients[c]
  {
    match step
    case Tick(_) =>
    case HostStep(h, move) => HostLeavesClients(s, h, move);
    case ClientStep(d, act) =>
      if d != c {
        ClientLeavesOthers(s, d, act, c);
      }
  }

  /** Once the client has begun the exchange, the only failure it can report is uncertain. */
  lemma ExchangeFailsUncertain(s: State, step: Step, c: ClientId)
    requires Enabled(s, step) && At(s, c, Exchanging)
    ensures var s' := Apply(s, step);
            && c in s'.clients
            && var phase := s'.clients[c].phase;
               || phase == Exchanging || phase == Crashed || phase == Done(Uncertain)
               || (phase.Done? && phase.outcome.Replied?)
  {
    match step
    case Tick(_) =>
    case HostStep(h, move) => HostLeavesClients(s, h, move);
    case ClientStep(d, act) =>
      if d != c {
        ClientLeavesOthers(s, d, act, c);
      }
  }

  ghost predicate IsExtension(run: seq<State>, s: State) {
    |run| > 0 && run[0] == s && forall i :: 0 < i < |run| ==> Next(run[i - 1], run[i])
  }

  lemma Extend(run: seq<State>, s: State, step: Step) returns (longer: seq<State>)
    requires IsExtension(run, s) && Enabled(run[|run| - 1], step)
    ensures longer == run + [Apply(run[|run| - 1], step)] && IsExtension(longer, s)
  {
    longer := run + [Apply(run[|run| - 1], step)];
    assert Next(longer[|run| - 1], longer[|run|]);
    forall i | 0 < i < |longer|
      ensures Next(longer[i - 1], longer[i])
    {
      if i < |run| {
        assert Next(run[i - 1], run[i]);
      }
    }
  }

  /** Whatever a crashed owner left at the path, the next host can take the endpoint over by its own
  steps alone. */
  lemma TakeOverAlwaysPossible(s: State, h: HostId) returns (run: seq<State>)
    requires HostAt(s, h, Booting) && s.ownerLock.None?
    ensures IsExtension(run, s)
    ensures var last := run[|run| - 1];
            HostAt(last, h, Listening) && last.path == Some(h) && last.ownerLock == Some(h)
  {
    run := Extend([s], s, HostStep(h, TakeOwner));
    if s.path.Some? {
      run := Extend(run, s, HostStep(h, SeeSocket));
      run := Extend(run, s, HostStep(h, Unlink));
    } else {
      run := Extend(run, s, HostStep(h, SeeNoSocket));
    }
    run := Extend(run, s, HostStep(h, Bind));
  }
}

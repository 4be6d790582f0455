/** The server, N clients and the channels between them, as a transition system. */
module Protocol {
  import opened Wrappers
  import opened Bytes
  import opened Messages
  import opened ServerModel

  datatype ClientPhase =
    | Fresh          // about to send its START
    | AwaitOk        // waiting for the reply to START
    | AtBarrier      // in MPI_Barrier
    | Looping        // at the top of the loop in run
    | AwaitPayload   // probing for a message with its own tag
    | AwaitReply     // waiting for the reply to a TRANSFER
    | Finished       // its STOP is sent; it never receives again
    | Failed         // it threw

  datatype ClientState = ClientState(phase: ClientPhase, remaining: nat, received: seq<Parcel>, actions: seq<Action>)

  /** Where the server is within one iteration; Idle is the blocking receive at its top. */
  datatype ServerPhase =
    | Idle
    | Sending(peer: nat, worker: nat, parcel: Parcel)
    | Waiting(peer: nat, worker: nat, parcel: Parcel)
    | Replying(peer: nat, reply: Reply)

  /** inbox[c]: requests of client c not yet received; outbox[c]: replies it has not read; mail[w]: parcels that
      worker w has not matched; log: the requests the server received. */
  datatype State = State(
    server: ServerVars,
    phase: ServerPhase,
    clients: seq<ClientState>,
    inbox: seq<seq<Request>>,
    outbox: seq<seq<Reply>>,
    mail: seq<seq<Parcel>>,
    log: seq<Envelope>)

  predicate Shaped(cfg: Config, s: State) {
    && |cfg.addrs| == cfg.N()
    && |s.server.active| == |s.clients| == |s.inbox| == |s.outbox| == |s.mail| == cfg.N()
  }

  function Initial(cfg: Config): (s: State) {
    State(InitialServer(cfg.N()), Idle,
          seq(cfg.N(), c requires 0 <= c < cfg.N() => ClientState(Fresh, cfg.iters[c], [], [])),
          Repeat(cfg.N(), []), Repeat(cfg.N(), []), Repeat(cfg.N(), []), [])
  }

  /** Who moves. The server may receive from any client with a queued request. */
  datatype Label = ClientMoves(c: nat) | ServerReceives(c: nat) | ServerMoves

  // ---- Clients ----

  /** The position of the first parcel with the given tag, or |mail|. */
  function FirstMatch(mail: seq<Parcel>, tag: nat): (i: nat)
    ensures i <= |mail|
    ensures i < |mail| ==> mail[i].tag == tag
    ensures forall j | 0 <= j < i :: mail[j].tag != tag
  {
    if mail == [] then 0
    else if mail[0].tag == tag then 0
    else 1 + FirstMatch(mail[1..], tag)
  }

  predicate HasArrived(p: ClientPhase) {
    !p.Fresh? && !p.AwaitOk? && !p.Failed?
  }

  predicate AllArrived(clients: seq<ClientState>) {
    forall c | 0 <= c < |clients| :: HasArrived(clients[c].phase)
  }

  predicate ClientEnabled(cfg: Config, s: State, c: nat)
    requires Shaped(cfg, s) && c < cfg.N()
  {
    match s.clients[c].phase
    case Fresh => true
    case AwaitOk => s.outbox[c] != []
    case AtBarrier => AllArrived(s.clients)
    case Looping => true
    case AwaitPayload => FirstMatch(s.mail[c], c) < |s.mail[c]|
    case AwaitReply => s.outbox[c] != []
    case Finished => false
    case Failed => false
  }

  function Queue(s: State, c: nat, k: ClientState, r: Request): State
    requires c < |s.clients| && c < |s.inbox|
  {
    s.(clients := s.clients[c := k.(actions := k.actions + [SendRequest(r)])], inbox := s.inbox[c := s.inbox[c] + [r]])
  }

  function ReadReply(s: State, c: nat, k: ClientState): State
    requires c < |s.clients| && c < |s.outbox| && s.outbox[c] != []
  {
    s.(clients := s.clients[c := k.(actions := k.actions + [RecvReply(s.outbox[c][0])])],
       outbox := s.outbox[c := s.outbox[c][1..]])
  }

  function MatchParcel(cfg: Config, s: State, c: nat): State
    requires Shaped(cfg, s) && c < cfg.N() && FirstMatch(s.mail[c], c) < |s.mail[c]|
  {
    var k, i := s.clients[c], FirstMatch(s.mail[c], c);
    var p := s.mail[c][i];
    var phase := if |p.data| == cfg.dataSize then AwaitReply else Failed;
    s.(clients := s.clients[c := k.(phase := phase, received := k.received + [p], actions := k.actions + [RecvParcel(p)])],
       mail := s.mail[c := s.mail[c][..i] + s.mail[c][i + 1..]])
  }

  function StepClient(cfg: Config, s: State, c: nat): (s': State)
    requires Shaped(cfg, s) && c < cfg.N() && ClientEnabled(cfg, s, c)
    ensures Shaped(cfg, s')
  {
    var k := s.clients[c];
    match k.phase
    case Fresh => Queue(s, c, k.(phase := AwaitOk), StartRequest(c))
    case AwaitOk => ReadReply(s, c, k.(phase := if s.outbox[c][0] == StartOk then AtBarrier else Failed))
    case AtBarrier =>
      s.(clients := s.clients[c := k.(phase := Looping, actions := k.actions + [LeaveBarrier])])
    case Looping =>
      if k.remaining > 0 then Queue(s, c, k.(phase := AwaitPayload), TransferRequest(cfg, c))
      else Queue(s, c, k.(phase := Finished), StopRequest(c))
    case AwaitPayload => MatchParcel(cfg, s, c)
    case AwaitReply =>
      ReadReply(s, c, if s.outbox[c][0] == IterOk && k.remaining > 0
                      then k.(phase := Looping, remaining := k.remaining - 1)
                      else k.(phase := Failed))
  }

  // ---- The server ----

  predicate ReceiveEnabled(cfg: Config, s: State, c: nat)
    requires Shaped(cfg, s) && c < cfg.N()
  {
    s.phase.Idle? && (s.server.mode.Starting? || s.server.mode.Serving?) && s.inbox[c] != []
  }

  function StepReceive(cfg: Config, s: State, c: nat): (s': State)
    requires Shaped(cfg, s) && c < cfg.N() && ReceiveEnabled(cfg, s, c)
    ensures Shaped(cfg, s')
  {
    var r := s.inbox[c][0];
    var v := Hear(s.server, Envelope(c, r));
    var s1 := s.(inbox := s.inbox[c := s.inbox[c][1..]], log := s.log + [Envelope(c, r)]);
    match Handle(cfg, s.server, r)
    case Throw(fault) => s1.(server := v.(mode := Thrown(fault)))
    case Acknowledge(active, reply) => s1.(server := v.(active := active), phase := Replying(c, reply))
    case Send(worker, parcel) => s1.(server := v, phase := Sending(c, worker, parcel))
  }

  /** A send need not complete before the receiver has matched it; with cfg.eager it may. */
  predicate ServerEnabled(cfg: Config, s: State)
    requires Shaped(cfg, s)
  {
    match s.phase
    case Idle => false
    case Sending(_, worker, _) => worker < cfg.N()
    case Waiting(_, worker, parcel) => cfg.eager || worker >= cfg.N() || parcel !in s.mail[worker]
    case Replying(peer, _) => peer < cfg.N()
  }

  function StepServer(cfg: Config, s: State): (s': State)
    requires Shaped(cfg, s) && ServerEnabled(cfg, s)
    ensures Shaped(cfg, s')
  {
    match s.phase
    case Sending(peer, worker, parcel) =>
      s.(phase := Waiting(peer, worker, parcel),
         mail := s.mail[worker := s.mail[worker] + [parcel]],
         server := Transmit(s.server, worker, parcel))
    case Waiting(peer, _, _) => s.(phase := Replying(peer, IterOk), server := HangUp(s.server))
    case Replying(peer, reply) =>
      s.(phase := Idle,
         outbox := s.outbox[peer := s.outbox[peer] + [reply]],
         server := Finish(s.server, peer, reply))
  }

  // ---- Runs ----

  predicate Enabled(cfg: Config, s: State, l: Label)
    requires Shaped(cfg, s)
  {
    match l
    case ClientMoves(c) => c < cfg.N() && ClientEnabled(cfg, s, c)
    case ServerReceives(c) => c < cfg.N() && ReceiveEnabled(cfg, s, c)
    case ServerMoves => ServerEnabled(cfg, s)
  }

  function Step(cfg: Config, s: State, l: Label): (s': State)
    requires Shaped(cfg, s) && Enabled(cfg, s, l)
    ensures Shaped(cfg, s')
  {
    match l
    case ClientMoves(c) => StepClient(cfg, s, c)
    case ServerReceives(c) => StepReceive(cfg, s, c)
    case ServerMoves => StepServer(cfg, s)
  }

  /** The state after the steps of run from the initial state, if every step is enabled in turn. */
  function After(cfg: Config, run: seq<Label>): (r: Option<State>)
    requires |cfg.addrs| == cfg.N()
    ensures r.Some? ==> Shaped(cfg, r.value)
  {
    if run == [] then Some(Initial(cfg))
    else
      var before := After(cfg, run[..|run| - 1]);
      var l := run[|run| - 1];
      if before.Some? && Enabled(cfg, before.value, l) then Some(Step(cfg, before.value, l)) else None
  }
}

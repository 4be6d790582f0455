/** The inductive invariant of the protocol: it ties each client's phase to its messages in flight and to the table. */
module Invariant {
  import opened Wrappers
  import opened Bytes
  import opened Messages
  import opened ServerModel
  import opened Protocol
  import Handoff
  import Base64Lengths

  /** Everything that concerns one client; busy is the server's phase if it serves this client, else Idle. */
  datatype View = View(
    phase: ClientPhase,
    remaining: nat,
    inbox: seq<Request>,
    outbox: seq<Reply>,
    mail: seq<Parcel>,
    active: bool,
    busy: ServerPhase)

  function BusyWith(phase: ServerPhase, c: nat): ServerPhase {
    match phase
    case Idle => Idle
    case Sending(peer, _, _) => if peer == c then phase else Idle
    case Waiting(peer, _, _) => if peer == c then phase else Idle
    case Replying(peer, _) => if peer == c then phase else Idle
  }

  function ViewOf(cfg: Config, s: State, c: nat): View
    requires Shaped(cfg, s) && c < cfg.N()
  {
    View(s.clients[c].phase, s.clients[c].remaining, s.inbox[c], s.outbox[c], s.mail[c], s.server.active[c],
         BusyWith(s.phase, c))
  }

  /** What is sent to client c in every transfer: the server's buffer under c's own tag. */
  function Payload(cfg: Config, c: nat): Parcel {
    Parcel(c, cfg.data)
  }

  /** Nothing in flight for this client, and the server is not serving it. */
  predicate Quiet(v: View) {
    v.inbox == [] && v.outbox == [] && v.mail == [] && v.busy == Idle
  }

  predicate Only(v: View, inbox: seq<Request>, outbox: seq<Reply>, mail: seq<Parcel>, busy: ServerPhase) {
    v.inbox == inbox && v.outbox == outbox && v.mail == mail && v.busy == busy
  }

  /** The START is queued, being answered, or answered. */
  predicate StartPending(c: nat, v: View, late: bool) {
    || (Only(v, [StartRequest(c)], [], [], Idle) && !v.active && !late)
    || (Only(v, [], [], [], Replying(c, StartOk)) && v.active && !late)
    || (Only(v, [], [StartOk], [], Idle) && v.active)
  }

  /** A TRANSFER is queued or served, and its payload is not matched; a reply can be there only with eager sends. */
  predicate Transferring(cfg: Config, c: nat, v: View)
    requires c < |cfg.addrs|
  {
    var p := Payload(cfg, c);
    || Only(v, [TransferRequest(cfg, c)], [], [], Idle)
    || Only(v, [], [], [], Sending(c, c, p))
    || Only(v, [], [], [p], Waiting(c, c, p))
    || (cfg.eager && Only(v, [], [], [p], Replying(c, IterOk)))
    || (cfg.eager && Only(v, [], [IterOk], [p], Idle))
  }

  /** The payload is matched; the reply is still to be sent or read. */
  predicate Matched(cfg: Config, c: nat, v: View) {
    || Only(v, [], [], [], Waiting(c, c, Payload(cfg, c)))
    || Only(v, [], [], [], Replying(c, IterOk))
    || Only(v, [], [IterOk], [], Idle)
  }

  /** The STOP is queued, being answered, or answered; the reply is never read. */
  predicate Stopping(c: nat, v: View) {
    || (Only(v, [StopRequest(c)], [], [], Idle) && v.active)
    || (Only(v, [], [], [], Replying(c, DisconnectOk)) && !v.active)
    || (Only(v, [], [DisconnectOk], [], Idle) && !v.active)
  }

  /** What holds of client c; late says that the server has left its start loop. */
  predicate Local(cfg: Config, c: nat, v: View, late: bool)
    requires c < |cfg.addrs| && c < cfg.N()
  {
    && v.remaining <= cfg.iters[c]
    && match v.phase
       case Fresh => Quiet(v) && !v.active && !late && v.remaining == cfg.iters[c]
       case AwaitOk => StartPending(c, v, late) && v.remaining == cfg.iters[c]
       case AtBarrier => Quiet(v) && v.active && v.remaining == cfg.iters[c]
       case Looping => Quiet(v) && v.active && late
       case AwaitPayload => Transferring(cfg, c, v) && v.active && late && v.remaining > 0
       case AwaitReply => Matched(cfg, c, v) && v.active && late && v.remaining > 0
       case Finished => Stopping(c, v) && late && v.remaining == 0
       case Failed => false
  }

  predicate Late(s: State) {
    !s.server.mode.Starting?
  }

  predicate PeerInRange(cfg: Config, phase: ServerPhase) {
    phase.Idle? || phase.peer < cfg.N()
  }

  /** What holds of the server: it has not thrown, and between iterations the flags agree with the table and the loop it
      is in is the one its conditions ask for. */
  predicate Central(cfg: Config, s: State)
    requires Shaped(cfg, s)
  {
    var v := s.server;
    && !v.mode.Thrown?
    && PeerInRange(cfg, s.phase)
    && (s.phase.Idle? ==> v.allActive == AllActive(v.active) && v.allUnactive == NoneActive(v.active))
    && (v.mode.Starting? && s.phase.Idle? ==> !v.allActive)
    && (v.mode.Serving? && s.phase.Idle? ==> !v.allUnactive)
    && (v.mode.Stopped? ==> s.phase.Idle? && v.allUnactive)
  }

  predicate Inv(cfg: Config, s: State) {
    && Shaped(cfg, s)
    && Central(cfg, s)
    && forall c | 0 <= c < cfg.N() :: Local(cfg, c, ViewOf(cfg, s, c), Late(s))
  }

  lemma InitialInv(cfg: Config)
    requires cfg.Valid()
    ensures Inv(cfg, Initial(cfg))
  {
    assert !Initial(cfg).server.active[0];
  }

  /** A step that changes only what concerns client c keeps the others. */
  lemma OthersKeep(cfg: Config, s: State, s': State, c: nat)
    requires Inv(cfg, s) && Shaped(cfg, s') && Central(cfg, s') && c < cfg.N()
    requires forall d | 0 <= d < cfg.N() && d != c :: ViewOf(cfg, s', d) == ViewOf(cfg, s, d)
    requires Late(s') == Late(s)
    requires Local(cfg, c, ViewOf(cfg, s', c), Late(s))
    ensures Inv(cfg, s')
  {
  }

  /** The barrier: while the server is in its start loop no client can leave it. */
  lemma BarrierHolds(cfg: Config, s: State)
    requires Inv(cfg, s) && AllArrived(s.clients)
    ensures Late(s)
  {
    if !Late(s) {
      var p := if s.phase.Idle? then 0 else s.phase.peer;
      assert cfg.N() > 0 ==> Local(cfg, p, ViewOf(cfg, s, p), false);
      forall c | 0 <= c < cfg.N() ensures s.server.active[c] {
        assert Local(cfg, c, ViewOf(cfg, s, c), false);
      }
    }
  }

  lemma OwnParcelMatches(cfg: Config, c: nat)
    ensures FirstMatch([Payload(cfg, c)], c) == 0
  {
  }

  /** What concerns client c after its next step, when everything it reads is what it expects. */
  function NextView(cfg: Config, c: nat, v: View): View
    requires c < |cfg.addrs|
  {
    match v.phase
    case Fresh => v.(phase := AwaitOk, inbox := [StartRequest(c)])
    case AwaitOk => v.(phase := AtBarrier, outbox := [])
    case AtBarrier => v.(phase := Looping)
    case Looping =>
      if v.remaining > 0 then v.(phase := AwaitPayload, inbox := [TransferRequest(cfg, c)])
      else v.(phase := Finished, inbox := [StopRequest(c)])
    case AwaitPayload => v.(phase := AwaitReply, mail := [])
    case AwaitReply => v.(phase := Looping, remaining := if v.remaining > 0 then v.remaining - 1 else 0, outbox := [])
    case Finished => v
    case Failed => v
  }

  lemma ClientView(cfg: Config, s: State, c: nat)
    requires cfg.Valid() && Inv(cfg, s) && c < cfg.N() && ClientEnabled(cfg, s, c)
    ensures ViewOf(cfg, StepClient(cfg, s, c), c) == NextView(cfg, c, ViewOf(cfg, s, c))
  {
    hide TransferRequest, AllArrived, Central;
    assert Local(cfg, c, ViewOf(cfg, s, c), Late(s));
    OwnParcelMatches(cfg, c);
    assert FirstMatch([], c) == 0;
  }

  /** A step is possible only from these views. */
  predicate Ready(v: View, late: bool) {
    match v.phase
    case AwaitOk => v.outbox != []
    case AtBarrier => late
    case AwaitPayload => v.mail != []
    case AwaitReply => v.outbox != []
    case Finished => false
    case Failed => false
    case _ => true
  }

  lemma EnabledIsReady(cfg: Config, s: State, c: nat)
    requires Inv(cfg, s) && c < cfg.N() && ClientEnabled(cfg, s, c)
    ensures Ready(ViewOf(cfg, s, c), Late(s))
  {
    hide AllArrived, Local, Central;
    if s.clients[c].phase.AtBarrier? {
      BarrierHolds(cfg, s);
    }
  }

  lemma NextViewIsLocal(cfg: Config, c: nat, v: View, late: bool)
    requires c < cfg.N() == |cfg.addrs| && Local(cfg, c, v, late) && Ready(v, late)
    ensures Local(cfg, c, NextView(cfg, c, v), late)
  {
    hide TransferRequest;
  }

  lemma ClientKeepsLocal(cfg: Config, s: State, c: nat)
    requires cfg.Valid() && Inv(cfg, s) && c < cfg.N() && ClientEnabled(cfg, s, c)
    ensures Local(cfg, c, ViewOf(cfg, StepClient(cfg, s, c), c), Late(s))
  {
    hide Local, Central, NextView, Ready, StepClient, ClientEnabled;
    ClientView(cfg, s, c);
    EnabledIsReady(cfg, s, c);
    NextViewIsLocal(cfg, c, ViewOf(cfg, s, c), Late(s));
  }

  lemma ClientFrame(cfg: Config, s: State, c: nat, d: nat)
    requires Shaped(cfg, s) && c < cfg.N() && d < cfg.N() && c != d && ClientEnabled(cfg, s, c)
    ensures var s' := StepClient(cfg, s, c);
            && s'.log == s.log && s'.server == s.server && s'.clients[d] == s.clients[d] && s'.mail[d] == s.mail[d]
            && ViewOf(cfg, s', d) == ViewOf(cfg, s, d)
  {
    hide TransferRequest, AllArrived, FirstMatch;
  }

  lemma ClientKeepsInv(cfg: Config, s: State, c: nat)
    requires cfg.Valid() && Inv(cfg, s) && c < cfg.N() && ClientEnabled(cfg, s, c)
    ensures Inv(cfg, StepClient(cfg, s, c))
  {
    hide TransferRequest, AllArrived, Local, FirstMatch;
    ClientKeepsLocal(cfg, s, c);
    forall d | 0 <= d < cfg.N() && d != c ensures ViewOf(cfg, StepClient(cfg, s, c), d) == ViewOf(cfg, s, d) {
      ClientFrame(cfg, s, c, d);
    }
    OthersKeep(cfg, s, StepClient(cfg, s, c), c);
  }

  /** The request of a client in a reachable state leads to what it asks for; the address resolves to its worker. */
  lemma HandleTransferRequest(cfg: Config, c: nat)
    requires cfg.Valid() && c < cfg.N()
    ensures HandleTransfer(cfg, TransferRequest(cfg, c).body.value) == Send(c, Payload(cfg, c))
  {
    Handoff.AddressHandoff(cfg.addrs[c], 0);
  }

  /** What the server does with the next request of client c; in no case does it throw. */
  function ExpectedWork(cfg: Config, active: seq<bool>, c: nat, phase: ClientPhase): Work
    requires c < |active|
  {
    if phase.AwaitOk? then Acknowledge(active[c := true], StartOk)
    else if phase.AwaitPayload? then Send(c, Payload(cfg, c))
    else Acknowledge(active[c := false], DisconnectOk)
  }

  lemma RequestsAreHandled(cfg: Config, s: State, c: nat)
    requires cfg.Valid() && Inv(cfg, s) && c < cfg.N() && ReceiveEnabled(cfg, s, c)
    ensures Handle(cfg, s.server, s.inbox[c][0]) == ExpectedWork(cfg, s.server.active, c, s.clients[c].phase)
  {
    hide HandleTransfer;
    assert Local(cfg, c, ViewOf(cfg, s, c), Late(s));
    HandleTransferRequest(cfg, c);
  }

  lemma ReceiveKeepsLocal(cfg: Config, s: State, c: nat)
    requires cfg.Valid() && Inv(cfg, s) && c < cfg.N() && ReceiveEnabled(cfg, s, c)
    ensures var s' := StepReceive(cfg, s, c);
            && Shaped(cfg, s')
            && Local(cfg, c, ViewOf(cfg, s', c), Late(s'))
            && (forall d | 0 <= d < cfg.N() && d != c :: ViewOf(cfg, s', d) == ViewOf(cfg, s, d))
  {
    hide TransferRequest, Handle;
    assert Local(cfg, c, ViewOf(cfg, s, c), Late(s));
    RequestsAreHandled(cfg, s, c);
  }

  lemma ReceiveKeepsInv(cfg: Config, s: State, c: nat)
    requires cfg.Valid() && Inv(cfg, s) && c < cfg.N() && ReceiveEnabled(cfg, s, c)
    ensures Shaped(cfg, StepReceive(cfg, s, c)) && Inv(cfg, StepReceive(cfg, s, c))
  {
    hide TransferRequest, Handle, Local;
    ReceiveKeepsLocal(cfg, s, c);
    RequestsAreHandled(cfg, s, c);
    OthersKeep(cfg, s, StepReceive(cfg, s, c), c);
  }

  lemma ServerKeepsLocal(cfg: Config, s: State)
    requires cfg.Valid() && Inv(cfg, s) && ServerEnabled(cfg, s)
    ensures var s' := StepServer(cfg, s);
            && Local(cfg, s.phase.peer, ViewOf(cfg, s', s.phase.peer), Late(s'))
            && (forall d | 0 <= d < cfg.N() && d != s.phase.peer :: ViewOf(cfg, s', d) == ViewOf(cfg, s, d))
  {
    hide TransferRequest;
    var c := s.phase.peer;
    assert Local(cfg, c, ViewOf(cfg, s, c), Late(s));
  }

  lemma ServerKeepsCentral(cfg: Config, s: State)
    requires cfg.Valid() && Inv(cfg, s) && ServerEnabled(cfg, s)
    ensures Central(cfg, StepServer(cfg, s))
  {
    assert AllActive(s.server.active) ==> s.server.active[0];
  }

  /** When the server leaves its start loop every client's START was received, since every table entry is set. */
  lemma StartLoopEnds(cfg: Config, s: State)
    requires cfg.Valid() && Inv(cfg, s) && ServerEnabled(cfg, s)
    requires !Late(s) && Late(StepServer(cfg, s))
    ensures Inv(cfg, StepServer(cfg, s))
  {
    hide TransferRequest;
    var s' := StepServer(cfg, s);
    ServerKeepsLocal(cfg, s);
    ServerKeepsCentral(cfg, s);
    forall d | 0 <= d < cfg.N() ensures Local(cfg, d, ViewOf(cfg, s', d), true) {
      if d != s.phase.peer {
        assert Local(cfg, d, ViewOf(cfg, s, d), false) && s'.server.active[d];
      }
    }
  }

  lemma ServerKeepsInv(cfg: Config, s: State)
    requires cfg.Valid() && Inv(cfg, s) && ServerEnabled(cfg, s)
    ensures Inv(cfg, StepServer(cfg, s))
  {
    hide TransferRequest, Local;
    var s' := StepServer(cfg, s);
    if Late(s') == Late(s) {
      ServerKeepsLocal(cfg, s);
      ServerKeepsCentral(cfg, s);
      OthersKeep(cfg, s, s', s.phase.peer);
    } else {
      StartLoopEnds(cfg, s);
    }
  }

  lemma StepKeepsInv(cfg: Config, s: State, l: Label)
    requires cfg.Valid() && Inv(cfg, s) && Enabled(cfg, s, l)
    ensures Inv(cfg, Step(cfg, s, l))
  {
    match l
    case ClientMoves(c) => ClientKeepsInv(cfg, s, c);
    case ServerReceives(c) => ReceiveKeepsInv(cfg, s, c);
    case ServerMoves => ServerKeepsInv(cfg, s);
  }

  /** The invariant holds after every run, for every number of clients and every interleaving. */
  lemma {:induction false} Reachable(cfg: Config, run: seq<Label>)
    requires cfg.Valid() && After(cfg, run).Some?
    ensures Inv(cfg, After(cfg, run).value)
  {
    if run == [] {
      InitialInv(cfg);
    } else {
      Reachable(cfg, run[..|run| - 1]);
      StepKeepsInv(cfg, After(cfg, run[..|run| - 1]).value, run[|run| - 1]);
    }
  }
}

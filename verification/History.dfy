/** What has happened so far, read off the invariant: scripts, conservation, the shape of the server's log. */
module History {
  import opened Wrappers
  import opened Bytes
  import opened Messages
  import opened ServerModel
  import opened Protocol
  import opened Invariant

  // ---- What each client has done ----

  function Round(cfg: Config, c: nat): (r: seq<Action>)
    requires c < |cfg.addrs|
    ensures |r| == 3
  {
    [SendRequest(TransferRequest(cfg, c)), RecvParcel(Payload(cfg, c)), RecvReply(IterOk)]
  }

  function Rounds(cfg: Config, c: nat, n: nat): seq<Action>
    requires c < |cfg.addrs|
  {
    if n == 0 then [] else Rounds(cfg, c, n - 1) + Round(cfg, c)
  }

  lemma {:induction false} RoundsLength(cfg: Config, c: nat, n: nat)
    requires c < |cfg.addrs|
    ensures |Rounds(cfg, c, n)| == 3 * n
  {
    if n > 0 {
      RoundsLength(cfg, c, n - 1);
    }
  }

  /** The actions of client c up to n completed transfers. */
  function Opening(cfg: Config, c: nat, n: nat): seq<Action>
    requires c < |cfg.addrs|
  {
    [SendRequest(StartRequest(c)), RecvReply(StartOk), LeaveBarrier] + Rounds(cfg, c, n)
  }

  /** START, its reply, the barrier, the transfers one by one, STOP: the prefix for a phase. */
  function ActionsAt(cfg: Config, c: nat, phase: ClientPhase, done: nat): seq<Action>
    requires c < |cfg.addrs|
  {
    match phase
    case Fresh => []
    case AwaitOk => [SendRequest(StartRequest(c))]
    case AtBarrier => [SendRequest(StartRequest(c)), RecvReply(StartOk)]
    case Looping => Opening(cfg, c, done)
    case AwaitPayload => Opening(cfg, c, done) + Round(cfg, c)[..1]
    case AwaitReply => Opening(cfg, c, done) + Round(cfg, c)[..2]
    case Finished => Opening(cfg, c, done) + [SendRequest(StopRequest(c))]
    case Failed => []
  }

  function Done(cfg: Config, c: nat, v: View): int
    requires c < cfg.N()
  {
    cfg.iters[c] - v.remaining
  }

  /** The transfers whose payload was matched. */
  function MatchedCount(cfg: Config, c: nat, v: View): int
    requires c < cfg.N()
  {
    Done(cfg, c, v) + if v.phase.AwaitReply? then 1 else 0
  }

  predicate ClientHistory(cfg: Config, s: State, c: nat)
    requires Shaped(cfg, s) && c < cfg.N()
  {
    var v := ViewOf(cfg, s, c);
    && Done(cfg, c, v) >= 0
    && s.clients[c].actions == ActionsAt(cfg, c, v.phase, Done(cfg, c, v))
    && s.clients[c].received == Repeat(MatchedCount(cfg, c, v), Payload(cfg, c))
  }

  // ---- What the server has received and sent, per client ----

  function RequestsFrom(log: seq<Envelope>, c: nat): seq<Request> {
    if log == [] then []
    else RequestsFrom(log[..|log| - 1], c) + if log[|log| - 1].peer == c then [log[|log| - 1].request] else []
  }

  function ParcelsTo(dispatched: seq<Dispatch>, c: nat): seq<Parcel> {
    if dispatched == [] then []
    else
      var last := dispatched[|dispatched| - 1];
      ParcelsTo(dispatched[..|dispatched| - 1], c) + if last.worker == c then [last.parcel] else []
  }

  function Script(cfg: Config, c: nat, started: bool, transfers: nat, stopped: bool): seq<Request>
    requires c < |cfg.addrs|
  {
    (if started then [StartRequest(c)] else [])
    + Repeat(transfers, TransferRequest(cfg, c))
    + (if stopped then [StopRequest(c)] else [])
  }

  predicate StartReceived(v: View) {
    !v.phase.Fresh? && !(v.phase.AwaitOk? && v.inbox != [])
  }

  function TransfersReceived(cfg: Config, c: nat, v: View): int
    requires c < cfg.N()
  {
    Done(cfg, c, v) + if v.phase.AwaitReply? || (v.phase.AwaitPayload? && v.inbox == []) then 1 else 0
  }

  predicate StopReceived(v: View) {
    v.phase.Finished? && v.inbox == []
  }

  /** The requests received from client c are its script so far; the parcels sent to it are those it matched and those
      in flight, and at most one is in flight. */
  predicate ServerHistory(cfg: Config, s: State, c: nat)
    requires Shaped(cfg, s) && c < cfg.N()
  {
    var v := ViewOf(cfg, s, c);
    && TransfersReceived(cfg, c, v) >= 0
    && RequestsFrom(s.log, c) == Script(cfg, c, StartReceived(v), TransfersReceived(cfg, c, v), StopReceived(v))
    && ParcelsTo(s.server.dispatched, c) == s.clients[c].received + s.mail[c]
  }

  predicate Histories(cfg: Config, s: State)
    requires Shaped(cfg, s)
  {
    forall c | 0 <= c < cfg.N() :: ClientHistory(cfg, s, c) && ServerHistory(cfg, s, c)
  }

  lemma InitialHistories(cfg: Config)
    requires cfg.Valid()
    ensures Histories(cfg, Initial(cfg))
  {
  }

  lemma RepeatMore<T>(n: nat, x: T)
    ensures Repeat(n + 1, x) == Repeat(n, x) + [x]
  {
  }

  lemma ScriptMore(cfg: Config, c: nat, n: nat)
    requires c < |cfg.addrs|
    ensures Script(cfg, c, false, 0, false) == []
    ensures Script(cfg, c, true, 0, false) == [StartRequest(c)]
    ensures Script(cfg, c, true, n + 1, false) == Script(cfg, c, true, n, false) + [TransferRequest(cfg, c)]
    ensures Script(cfg, c, true, n, true) == Script(cfg, c, true, n, false) + [StopRequest(c)]
  {
    RepeatMore(n, TransferRequest(cfg, c));
  }

  lemma RoundsMore(cfg: Config, c: nat, n: nat)
    requires c < |cfg.addrs|
    ensures Opening(cfg, c, 0) == [SendRequest(StartRequest(c)), RecvReply(StartOk)] + [LeaveBarrier]
    ensures Opening(cfg, c, n) + Round(cfg, c)[..1] == Opening(cfg, c, n) + [SendRequest(TransferRequest(cfg, c))]
    ensures Opening(cfg, c, n) + Round(cfg, c)[..2] ==
            Opening(cfg, c, n) + Round(cfg, c)[..1] + [RecvParcel(Payload(cfg, c))]
    ensures Opening(cfg, c, n + 1) == Opening(cfg, c, n) + Round(cfg, c)[..2] + [RecvReply(IterOk)]
  {
  }

  /** The client after its next step, when everything it reads is what it expects. */
  function NextClient(cfg: Config, c: nat, k: ClientState): ClientState
    requires c < |cfg.addrs|
  {
    match k.phase
    case Fresh => k.(phase := AwaitOk, actions := k.actions + [SendRequest(StartRequest(c))])
    case AwaitOk => k.(phase := AtBarrier, actions := k.actions + [RecvReply(StartOk)])
    case AtBarrier => k.(phase := Looping, actions := k.actions + [LeaveBarrier])
    case Looping =>
      if k.remaining > 0 then k.(phase := AwaitPayload, actions := k.actions + [SendRequest(TransferRequest(cfg, c))])
      else k.(phase := Finished, actions := k.actions + [SendRequest(StopRequest(c))])
    case AwaitPayload =>
      k.(phase := AwaitReply, received := k.received + [Payload(cfg, c)],
         actions := k.actions + [RecvParcel(Payload(cfg, c))])
    case AwaitReply =>
      k.(phase := Looping, remaining := if k.remaining > 0 then k.remaining - 1 else 0,
         actions := k.actions + [RecvReply(IterOk)])
    case Finished => k
    case Failed => k
  }

  /** No client ever reads a reply without the field it looks up, or a payload of another size or tag. */
  lemma ClientFollows(cfg: Config, s: State, c: nat)
    requires cfg.Valid() && Inv(cfg, s) && c < cfg.N() && ClientEnabled(cfg, s, c)
    ensures StepClient(cfg, s, c).clients[c] == NextClient(cfg, c, s.clients[c])
    ensures s.clients[c].phase.AwaitReply? ==> s.clients[c].remaining > 0
  {
    hide TransferRequest, AllArrived;
    assert Local(cfg, c, ViewOf(cfg, s, c), Late(s));
    OwnParcelMatches(cfg, c);
    assert FirstMatch([], c) == 0;
  }

  lemma ClientStepHistory(cfg: Config, s: State, c: nat)
    requires cfg.Valid() && Inv(cfg, s) && c < cfg.N() && ClientEnabled(cfg, s, c)
    requires ClientHistory(cfg, s, c)
    ensures ClientHistory(cfg, StepClient(cfg, s, c), c)
  {
    hide TransferRequest, Opening, Round, Repeat, StepClient, ClientEnabled;
    var v := ViewOf(cfg, s, c);
    ClientFollows(cfg, s, c);
    assert v.phase.AtBarrier? || v.phase.Fresh? || v.phase.AwaitOk? ==> Done(cfg, c, v) == 0 by {
      assert Local(cfg, c, v, Late(s));
    }
    EnabledPhases(cfg, s, c);
    RoundsMore(cfg, c, Done(cfg, c, v));
    RepeatMore(MatchedCount(cfg, c, v), Payload(cfg, c));
  }

  lemma EnabledPhases(cfg: Config, s: State, c: nat)
    requires Shaped(cfg, s) && c < cfg.N() && ClientEnabled(cfg, s, c)
    ensures !s.clients[c].phase.Finished? && !s.clients[c].phase.Failed?
  {
  }

  /** A client step sends or matches, but what the server has received and sent stays. */
  lemma ClientStepOutside(cfg: Config, s: State, c: nat)
    requires cfg.Valid() && Inv(cfg, s) && c < cfg.N() && ClientEnabled(cfg, s, c)
    ensures var v, v' := ViewOf(cfg, s, c), ViewOf(cfg, StepClient(cfg, s, c), c);
            && StartReceived(v') == StartReceived(v)
            && TransfersReceived(cfg, c, v') == TransfersReceived(cfg, c, v)
            && StopReceived(v') == StopReceived(v)
    ensures var s' := StepClient(cfg, s, c);
            s'.clients[c].received + s'.mail[c] == s.clients[c].received + s.mail[c]
  {
    hide TransferRequest, AllArrived;
    assert Local(cfg, c, ViewOf(cfg, s, c), Late(s));
    OwnParcelMatches(cfg, c);
    assert FirstMatch([], c) == 0;
  }

  lemma ClientStepServerHistory(cfg: Config, s: State, c: nat)
    requires cfg.Valid() && Inv(cfg, s) && c < cfg.N() && ClientEnabled(cfg, s, c)
    requires ServerHistory(cfg, s, c)
    ensures ServerHistory(cfg, StepClient(cfg, s, c), c)
  {
    ClientStepOutside(cfg, s, c);
    assert StepClient(cfg, s, c).log == s.log && StepClient(cfg, s, c).server == s.server;
    hide TransferRequest, StepClient, Script, Repeat, StartReceived, StopReceived, TransfersReceived;
  }

  /** The request received is the next one of the client's script. */
  lemma ReceiveFollows(cfg: Config, s: State, c: nat)
    requires cfg.Valid() && Inv(cfg, s) && c < cfg.N() && ReceiveEnabled(cfg, s, c)
    ensures Shaped(cfg, StepReceive(cfg, s, c))
    ensures var v, v' := ViewOf(cfg, s, c), ViewOf(cfg, StepReceive(cfg, s, c), c);
            var n := TransfersReceived(cfg, c, v);
            && n >= 0 && TransfersReceived(cfg, c, v') >= 0
            && Script(cfg, c, StartReceived(v'), TransfersReceived(cfg, c, v'), StopReceived(v')) ==
               Script(cfg, c, StartReceived(v), n, StopReceived(v)) + [s.inbox[c][0]]
  {
    hide TransferRequest, Handle, Script;
    assert Local(cfg, c, ViewOf(cfg, s, c), Late(s));
    RequestsAreHandled(cfg, s, c);
    ScriptMore(cfg, c, Done(cfg, c, ViewOf(cfg, s, c)));
  }

  /** Receiving changes only the server's log, table and phase. */
  lemma ReceiveOutside(cfg: Config, s: State, c: nat)
    requires cfg.Valid() && Inv(cfg, s) && c < cfg.N() && ReceiveEnabled(cfg, s, c)
    ensures var s' := StepReceive(cfg, s, c);
            && s'.clients == s.clients && s'.mail == s.mail && s'.server.dispatched == s.server.dispatched
            && s.inbox[c] != [] && s'.log == s.log + [Envelope(c, s.inbox[c][0])]
  {
  }

  lemma ReceiveHistory(cfg: Config, s: State, c: nat, d: nat)
    requires cfg.Valid() && Inv(cfg, s) && c < cfg.N() && d < cfg.N() && ReceiveEnabled(cfg, s, c)
    requires ClientHistory(cfg, s, d) && ServerHistory(cfg, s, d)
    ensures var s' := StepReceive(cfg, s, c);
            Shaped(cfg, s') && ClientHistory(cfg, s', d) && ServerHistory(cfg, s', d)
  {
    hide TransferRequest, ActionsAt, Script, Repeat, StepReceive, ReceiveEnabled, Local;
    ReceiveFollows(cfg, s, c);
    ReceiveKeepsLocal(cfg, s, c);
    ReceiveOutside(cfg, s, c);
    var s' := StepReceive(cfg, s, c);
    assert s'.log[..|s'.log| - 1] == s.log;
    assert RequestsFrom(s.log, d) + [] == RequestsFrom(s.log, d);
    assert RequestsFrom(s'.log, d) == RequestsFrom(s.log, d) + if d == c then [s.inbox[c][0]] else [];
  }

  /** A server step puts a parcel in flight, or changes nothing that was received or sent. */
  lemma ServerStepOutside(cfg: Config, s: State, d: nat)
    requires cfg.Valid() && Inv(cfg, s) && d < cfg.N() && ServerEnabled(cfg, s)
    ensures var s' := StepServer(cfg, s);
            var v, v' := ViewOf(cfg, s, d), ViewOf(cfg, s', d);
            && s'.clients == s.clients && s'.log == s.log
            && StartReceived(v') == StartReceived(v)
            && TransfersReceived(cfg, d, v') == TransfersReceived(cfg, d, v)
            && StopReceived(v') == StopReceived(v)
            && if s.phase.Sending? && s.phase.worker == d
               then s'.mail[d] == s.mail[d] + [s.phase.parcel]
               else s'.mail[d] == s.mail[d]
    ensures StepServer(cfg, s).server.dispatched == s.server.dispatched +
            if s.phase.Sending? then [Dispatch(s.phase.worker, s.phase.parcel)] else []
  {
  }

  lemma ServerStepHistory(cfg: Config, s: State, d: nat)
    requires cfg.Valid() && Inv(cfg, s) && d < cfg.N() && ServerEnabled(cfg, s)
    requires ClientHistory(cfg, s, d) && ServerHistory(cfg, s, d)
    ensures ClientHistory(cfg, StepServer(cfg, s), d) && ServerHistory(cfg, StepServer(cfg, s), d)
  {
    ServerStepOutside(cfg, s, d);
    hide TransferRequest, ActionsAt, Script, Repeat, StepServer, ServerEnabled, StartReceived, StopReceived, TransfersReceived, Inv;
    var s' := StepServer(cfg, s);
    if s.phase.Sending? {
      var all := s'.server.dispatched;
      assert all[..|all| - 1] == s.server.dispatched;
      assert ParcelsTo(s.server.dispatched, d) + [] == ParcelsTo(s.server.dispatched, d);
      assert s.clients[d].received + (s.mail[d] + [s.phase.parcel]) == s.clients[d].received + s.mail[d] + [s.phase.parcel];
    } else {
      assert s'.server.dispatched == s.server.dispatched;
    }
  }

  lemma OtherClientHistory(cfg: Config, s: State, c: nat, d: nat)
    requires Shaped(cfg, s) && c < cfg.N() && d < cfg.N() && c != d && ClientEnabled(cfg, s, c)
    requires ClientHistory(cfg, s, d) && ServerHistory(cfg, s, d)
    ensures ClientHistory(cfg, StepClient(cfg, s, c), d) && ServerHistory(cfg, StepClient(cfg, s, c), d)
  {
    hide TransferRequest, ActionsAt, Script, Repeat, StepClient, ClientEnabled;
    ClientFrame(cfg, s, c, d);
  }

  lemma StepHistories(cfg: Config, s: State, l: Label)
    requires cfg.Valid() && Inv(cfg, s) && Histories(cfg, s) && Enabled(cfg, s, l)
    ensures Histories(cfg, Step(cfg, s, l))
  {
    var s' := Step(cfg, s, l);
    forall d | 0 <= d < cfg.N() ensures ClientHistory(cfg, s', d) && ServerHistory(cfg, s', d) {
      hide ClientHistory, ServerHistory, StepClient, StepServer, StepReceive;
      match l {
        case ClientMoves(c) =>
          if c == d {
            ClientStepHistory(cfg, s, c);
            ClientStepServerHistory(cfg, s, c);
          } else {
            OtherClientHistory(cfg, s, c, d);
          }
        case ServerReceives(c) => ReceiveHistory(cfg, s, c, d);
        case ServerMoves => ServerStepHistory(cfg, s, d);
      }
    }
  }

  lemma {:induction false} ReachableHistories(cfg: Config, run: seq<Label>)
    requires cfg.Valid() && After(cfg, run).Some?
    ensures Inv(cfg, After(cfg, run).value) && Histories(cfg, After(cfg, run).value)
  {
    Reachable(cfg, run);
    if run == [] {
      InitialHistories(cfg);
    } else {
      var before := run[..|run| - 1];
      ReachableHistories(cfg, before);
      StepHistories(cfg, After(cfg, before).value, run[|run| - 1]);
    }
  }
}

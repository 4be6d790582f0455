/** Every run ends, after exactly as many steps as the parameters say, with everything delivered. */
module Progress {
  import opened Wrappers
  import opened Messages
  import opened ServerModel
  import opened Protocol
  import opened Invariant

  /** The steps still to be taken on behalf of client c, by itself or by the server. */
  function WorkLeft(v: View): int {
    match v.phase
    case Fresh => 8 + 7 * v.remaining
    case AwaitOk => 5 + 7 * v.remaining + (if v.inbox != [] then 2 else if v.outbox == [] then 1 else 0)
    case AtBarrier => 4 + 7 * v.remaining
    case Looping => 3 + 7 * v.remaining
    case AwaitPayload =>
      7 * v.remaining + (if v.inbox != [] then 2 else if v.busy.Sending? then 1 else if v.busy.Waiting? then 0
                         else if v.busy.Replying? then -1 else -2)
    case AwaitReply => 7 * v.remaining + (if v.busy.Waiting? then -1 else if v.busy.Replying? then -2 else -3)
    case Finished => if v.inbox != [] then 2 else if v.outbox == [] then 1 else 0
    case Failed => 0
  }

  function TotalWork(cfg: Config, s: State, n: nat): int
    requires Shaped(cfg, s) && n <= cfg.N()
  {
    if n == 0 then 0 else TotalWork(cfg, s, n - 1) + WorkLeft(ViewOf(cfg, s, n - 1))
  }

  /** The steps of a whole run: eight per client and seven per transfer. */
  function Budget(iters: seq<nat>): nat {
    if iters == [] then 0 else Budget(iters[..|iters| - 1]) + 8 + 7 * iters[|iters| - 1]
  }

  lemma {:induction false} InitialWork(cfg: Config, n: nat)
    requires |cfg.addrs| == cfg.N() && n <= cfg.N()
    ensures TotalWork(cfg, Initial(cfg), n) == Budget(cfg.iters[..n])
  {
    if n > 0 {
      InitialWork(cfg, n - 1);
      assert cfg.iters[..n][..n - 1] == cfg.iters[..n - 1];
    }
  }

  /** If only client c's view changes, the total changes as its work does. */
  lemma {:induction false} WorkChanges(cfg: Config, s: State, s': State, c: nat, n: nat)
    requires Shaped(cfg, s) && Shaped(cfg, s') && c < cfg.N() && n <= cfg.N()
    requires forall d | 0 <= d < cfg.N() && d != c :: ViewOf(cfg, s', d) == ViewOf(cfg, s, d)
    ensures TotalWork(cfg, s', n) - TotalWork(cfg, s, n) ==
            if c < n then WorkLeft(ViewOf(cfg, s', c)) - WorkLeft(ViewOf(cfg, s, c)) else 0
  {
    hide WorkLeft;
    if n > 0 {
      WorkChanges(cfg, s, s', c, n - 1);
    }
  }

  /** The client a step is taken for. */
  function Beneficiary(s: State, l: Label): nat {
    match l
    case ClientMoves(c) => c
    case ServerReceives(c) => c
    case ServerMoves => if s.phase.Idle? then 0 else s.phase.peer
  }

  lemma NextViewTakesOne(cfg: Config, c: nat, v: View, late: bool)
    requires c < cfg.N() == |cfg.addrs| && Local(cfg, c, v, late) && Ready(v, late)
    ensures WorkLeft(NextView(cfg, c, v)) == WorkLeft(v) - 1
  {
    hide TransferRequest;
  }

  lemma ClientWork(cfg: Config, s: State, c: nat)
    requires cfg.Valid() && Inv(cfg, s) && c < cfg.N() && ClientEnabled(cfg, s, c)
    ensures WorkLeft(ViewOf(cfg, StepClient(cfg, s, c), c)) == WorkLeft(ViewOf(cfg, s, c)) - 1
  {
    hide Local, Central, NextView, Ready, WorkLeft, StepClient, ClientEnabled;
    ClientView(cfg, s, c);
    EnabledIsReady(cfg, s, c);
    NextViewTakesOne(cfg, c, ViewOf(cfg, s, c), Late(s));
  }

  lemma ReceiveWork(cfg: Config, s: State, c: nat)
    requires cfg.Valid() && Inv(cfg, s) && c < cfg.N() && ReceiveEnabled(cfg, s, c)
    ensures Shaped(cfg, StepReceive(cfg, s, c))
    ensures WorkLeft(ViewOf(cfg, StepReceive(cfg, s, c), c)) == WorkLeft(ViewOf(cfg, s, c)) - 1
  {
    hide TransferRequest, Handle;
    assert Local(cfg, c, ViewOf(cfg, s, c), Late(s));
    RequestsAreHandled(cfg, s, c);
  }

  lemma ServerWork(cfg: Config, s: State)
    requires cfg.Valid() && Inv(cfg, s) && ServerEnabled(cfg, s)
    ensures var c := s.phase.peer;
            WorkLeft(ViewOf(cfg, StepServer(cfg, s), c)) == WorkLeft(ViewOf(cfg, s, c)) - 1
  {
    hide TransferRequest;
    assert Local(cfg, s.phase.peer, ViewOf(cfg, s, s.phase.peer), Late(s));
  }

  /** Every step takes exactly one off the total. */
  lemma StepTakesOne(cfg: Config, s: State, l: Label)
    requires cfg.Valid() && Inv(cfg, s) && Enabled(cfg, s, l)
    ensures TotalWork(cfg, Step(cfg, s, l), cfg.N()) == TotalWork(cfg, s, cfg.N()) - 1
  {
    hide WorkLeft, TransferRequest, Local, StepClient, StepReceive, StepServer;
    match l {
      case ClientMoves(c) =>
        ClientWork(cfg, s, c);
        forall d | 0 <= d < cfg.N() && d != c ensures ViewOf(cfg, StepClient(cfg, s, c), d) == ViewOf(cfg, s, d) {
          ClientFrame(cfg, s, c, d);
        }
      case ServerReceives(c) =>
        ReceiveWork(cfg, s, c);
        ReceiveKeepsLocal(cfg, s, c);
      case ServerMoves =>
        ServerWork(cfg, s);
        ServerKeepsLocal(cfg, s);
    }
    WorkChanges(cfg, s, Step(cfg, s, l), Beneficiary(s, l), cfg.N());
  }

  /** However the steps interleave, the steps taken and the work left add up to the budget. */
  lemma {:induction false} RunLength(cfg: Config, run: seq<Label>)
    requires cfg.Valid() && After(cfg, run).Some?
    ensures |run| + TotalWork(cfg, After(cfg, run).value, cfg.N()) == Budget(cfg.iters)
  {
    if run == [] {
      InitialWork(cfg, cfg.N());
      assert cfg.iters[..cfg.N()] == cfg.iters;
    } else {
      var before := run[..|run| - 1];
      RunLength(cfg, before);
      Reachable(cfg, before);
      StepTakesOne(cfg, After(cfg, before).value, run[|run| - 1]);
    }
  }

  lemma {:induction false} WorkIsNatural(cfg: Config, s: State, n: nat)
    requires Inv(cfg, s) && n <= cfg.N()
    ensures TotalWork(cfg, s, n) >= 0
    ensures TotalWork(cfg, s, n) == 0 ==> forall c | 0 <= c < n :: WorkLeft(ViewOf(cfg, s, c)) == 0
  {
    if n > 0 {
      WorkIsNatural(cfg, s, n - 1);
      assert Local(cfg, n - 1, ViewOf(cfg, s, n - 1), Late(s));
    }
  }

  // ---- Deadlock freedom ----

  /** The server has left its run loop and every client is past run. */
  predicate Final(s: State) {
    s.server.mode.Stopped? && forall c | 0 <= c < |s.clients| :: s.clients[c].phase.Finished?
  }

  /** The server blocks in the start loop: a client that is not active can move, or its START can be received. */
  lemma StartLoopProgress(cfg: Config, s: State) returns (l: Label)
    requires cfg.Valid() && Inv(cfg, s) && s.server.mode.Starting? && s.phase.Idle?
    ensures Enabled(cfg, s, l)
  {
    var c :| 0 <= c < cfg.N() && !s.server.active[c];
    assert Local(cfg, c, ViewOf(cfg, s, c), Late(s));
    if s.clients[c].phase.Fresh? {
      l := ClientMoves(c);
    } else {
      l := ServerReceives(c);
    }
  }

  lemma WaitingClientProgress(cfg: Config, s: State, c: nat) returns (l: Label)
    requires cfg.Valid() && Inv(cfg, s) && s.server.mode.Serving? && s.phase.Idle?
    requires c < cfg.N() && s.server.active[c] && s.inbox[c] == []
    ensures Enabled(cfg, s, l)
  {
    hide TransferRequest;
    assert Local(cfg, c, ViewOf(cfg, s, c), Late(s));
    OwnParcelMatches(cfg, c);
    l := ClientMoves(c);
    if s.clients[c].phase.AtBarrier? && !AllArrived(s.clients) {
      var d :| 0 <= d < cfg.N() && !HasArrived(s.clients[d].phase);
      assert Local(cfg, d, ViewOf(cfg, s, d), Late(s));
      l := if s.inbox[d] != [] then ServerReceives(d) else ClientMoves(d);
    }
  }

  /** The server blocks in the run loop: some entry is active, and that client's request is queued or it can move. */
  lemma RunLoopProgress(cfg: Config, s: State) returns (l: Label)
    requires cfg.Valid() && Inv(cfg, s) && s.server.mode.Serving? && s.phase.Idle?
    ensures Enabled(cfg, s, l)
  {
    var c :| 0 <= c < cfg.N() && s.server.active[c];
    if s.inbox[c] != [] {
      l := ServerReceives(c);
    } else {
      l := WaitingClientProgress(cfg, s, c);
    }
  }

  /** The server is in the middle of an iteration: it can go on, or the client it waits for can match the payload. */
  lemma BusyServerProgress(cfg: Config, s: State) returns (l: Label)
    requires cfg.Valid() && Inv(cfg, s) && !s.phase.Idle?
    ensures Enabled(cfg, s, l)
  {
    hide TransferRequest;
    var c := s.phase.peer;
    assert Local(cfg, c, ViewOf(cfg, s, c), Late(s));
    OwnParcelMatches(cfg, c);
    l := if ServerEnabled(cfg, s) then ServerMoves else ClientMoves(c);
  }

  lemma StoppedIsFinal(cfg: Config, s: State)
    requires Inv(cfg, s) && s.server.mode.Stopped?
    ensures Final(s)
    ensures forall c | 0 <= c < cfg.N() :: s.inbox[c] == [] && s.mail[c] == [] && s.outbox[c] == [DisconnectOk]
  {
    forall c | 0 <= c < cfg.N()
      ensures s.clients[c].phase.Finished? && s.inbox[c] == [] && s.mail[c] == [] && s.outbox[c] == [DisconnectOk]
    {
      assert Local(cfg, c, ViewOf(cfg, s, c), Late(s)) && !s.server.active[c];
    }
  }

  /** Every reachable state that is not final has a step, even when a send completes only after it is matched. */
  lemma NoDeadlock(cfg: Config, s: State) returns (l: Label)
    requires cfg.Valid() && Inv(cfg, s) && !Final(s)
    ensures Enabled(cfg, s, l)
  {
    if !s.phase.Idle? {
      l := BusyServerProgress(cfg, s);
    } else if s.server.mode.Starting? {
      l := StartLoopProgress(cfg, s);
    } else if s.server.mode.Serving? {
      l := RunLoopProgress(cfg, s);
    } else {
      StoppedIsFinal(cfg, s);
    }
  }

  lemma FinalIsStuck(cfg: Config, s: State, l: Label)
    requires Inv(cfg, s) && Final(s)
    ensures !Enabled(cfg, s, l)
  {
  }

  /** A run cannot be extended exactly when it is final, and exactly when it has taken Budget steps. */
  lemma MaximalRuns(cfg: Config, run: seq<Label>)
    requires cfg.Valid() && After(cfg, run).Some?
    ensures |run| <= Budget(cfg.iters)
    ensures (forall l :: !Enabled(cfg, After(cfg, run).value, l)) <==> Final(After(cfg, run).value)
    ensures |run| == Budget(cfg.iters) <==> Final(After(cfg, run).value)
  {
    var s := After(cfg, run).value;
    Reachable(cfg, run);
    RunLength(cfg, run);
    WorkIsNatural(cfg, s, cfg.N());
    if !Final(s) {
      var l := NoDeadlock(cfg, s);
      StepTakesOne(cfg, s, l);
      StepKeepsInv(cfg, s, l);
      WorkIsNatural(cfg, Step(cfg, s, l), cfg.N());
    } else {
      StoppedIsFinal(cfg, s);
      FinalWork(cfg, s, cfg.N());
      forall l ensures !Enabled(cfg, s, l) { FinalIsStuck(cfg, s, l); }
    }
  }

  lemma {:induction false} FinalWork(cfg: Config, s: State, n: nat)
    requires Inv(cfg, s) && Final(s) && n <= cfg.N()
    ensures TotalWork(cfg, s, n) == 0
  {
    if n > 0 {
      FinalWork(cfg, s, n - 1);
      StoppedIsFinal(cfg, s);
    }
  }
}

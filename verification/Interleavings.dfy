/** Exactly which interleavings there are: a definition that counts steps and knows nothing of states, and the proof that
    the runs are the sequences it allows. */
module Interleavings {
  import opened Wrappers
  import opened Bytes
  import opened Messages
  import opened ServerModel
  import opened Protocol
  import opened Invariant
  import opened History
  import opened ServerLog
  import opened Progress
  import opened ClientModel

  // ---- The definition ----

  /** How often client c has moved. */
  function Moves(run: seq<Label>, c: nat): nat {
    if run == [] then 0
    else Moves(run[..|run| - 1], c) + if run[|run| - 1] == ClientMoves(c) then 1 else 0
  }

  /** How often the server has received from client c. */
  function Receipts(run: seq<Label>, c: nat): nat {
    if run == [] then 0
    else Receipts(run[..|run| - 1], c) + if run[|run| - 1] == ServerReceives(c) then 1 else 0
  }

  /** The requests a client has sent after n moves: the first, and then every third, sends one. */
  function Sent(n: nat): nat {
    if n == 0 then 0 else 1 + (n - 1) / 3
  }

  /** The server waits for a request, or has so many steps left for the one it received last. */
  datatype Turn = Free | Occupied(peer: nat, left: nat)

  /** The k-th request of a client is a TRANSFER unless it is the first or the last; a TRANSFER takes the server three steps:
      send, wait, reply. The others take one. */
  function StepsFor(cfg: Config, c: nat, k: nat): nat {
    if c < cfg.N() && 2 <= k <= 1 + cfg.iters[c] then 3 else 1
  }

  function TurnAfter(cfg: Config, run: seq<Label>): Turn {
    if run == [] then Free
    else
      var before := TurnAfter(cfg, run[..|run| - 1]);
      var l := run[|run| - 1];
      if l.ClientMoves? then before
      else if l.ServerReceives? then Occupied(l.c, StepsFor(cfg, l.c, Receipts(run, l.c)))
      else if before.Free? || before.left <= 1 then Free
      else Occupied(before.peer, before.left - 1)
  }

  /** Client c's last request was received and is no longer being served. */
  predicate Answered(cfg: Config, run: seq<Label>, c: nat) {
    var turn := TurnAfter(cfg, run);
    Receipts(run, c) == Sent(Moves(run, c)) && (turn.Free? || turn.peer != c)
  }

  /** Client c's last request was received and its payload sent. */
  predicate PayloadOut(cfg: Config, run: seq<Label>, c: nat) {
    var turn := TurnAfter(cfg, run);
    Receipts(run, c) == Sent(Moves(run, c)) && (turn.Free? || turn.peer != c || turn.left < 3)
  }

  /** A client sends START at once, waits for the reply, then for all clients to have come so far; then it takes three steps
      an iteration, the first at once, the second when its payload is sent, the third when it is answered, and one more. */
  predicate ClientMay(cfg: Config, run: seq<Label>, c: nat) {
    var n := Moves(run, c);
    && c < cfg.N() && n < 4 + 3 * cfg.iters[c]
    && if n == 0 then true
       else if n == 1 then Answered(cfg, run, c)
       else if n == 2 then forall d | 0 <= d < cfg.N() :: Moves(run, d) >= 2
       else if n % 3 == 0 then true
       else if n % 3 == 1 then PayloadOut(cfg, run, c)
       else Answered(cfg, run, c)
  }

  /** The server, when free, may receive from any client that has sent more than was received; otherwise it goes on, but with
      sends that complete only once matched it first waits for the client to match its payload. */
  predicate May(cfg: Config, run: seq<Label>, l: Label) {
    var turn := TurnAfter(cfg, run);
    match l
    case ClientMoves(c) => ClientMay(cfg, run, c)
    case ServerReceives(c) => c < cfg.N() && turn.Free? && Receipts(run, c) < Sent(Moves(run, c))
    case ServerMoves => turn.Occupied? && (turn.left == 2 ==> cfg.eager || Moves(run, turn.peer) % 3 == 2)
  }

  predicate Legal(cfg: Config, run: seq<Label>) {
    run == [] || (Legal(cfg, run[..|run| - 1]) && May(cfg, run[..|run| - 1], run[|run| - 1]))
  }

  // ---- Counts and states ----

  predicate PhaseIs(turn: Turn, phase: ServerPhase) {
    match phase
    case Idle => turn == Free
    case Sending(peer, _, _) => turn == Occupied(peer, 3)
    case Waiting(peer, _, _) => turn == Occupied(peer, 2)
    case Replying(peer, _) => turn == Occupied(peer, 1)
  }

  predicate Tied(cfg: Config, run: seq<Label>, s: State)
    requires Shaped(cfg, s)
  {
    && PhaseIs(TurnAfter(cfg, run), s.phase)
    && forall c | 0 <= c < cfg.N() ::
         Moves(run, c) == |s.clients[c].actions| && Receipts(run, c) == |RequestsFrom(s.log, c)|
  }

  lemma OneMore(cfg: Config, run: seq<Label>, l: Label, c: nat)
    ensures Moves(run + [l], c) == Moves(run, c) + if l == ClientMoves(c) then 1 else 0
    ensures Receipts(run + [l], c) == Receipts(run, c) + if l == ServerReceives(c) then 1 else 0
  {
    assert (run + [l])[..|run|] == run;
  }

  lemma OneMoreTurn(cfg: Config, run: seq<Label>, l: Label)
    ensures var before := TurnAfter(cfg, run);
            TurnAfter(cfg, run + [l]) ==
            if l.ClientMoves? then before
            else if l.ServerReceives? then Occupied(l.c, StepsFor(cfg, l.c, Receipts(run, l.c) + 1))
            else if before.Free? || before.left <= 1 then Free
            else Occupied(before.peer, before.left - 1)
  {
    assert (run + [l])[..|run|] == run;
    if l.ServerReceives? {
      OneMore(cfg, run, l, l.c);
    }
  }

  /** The number of actions of a client that tells its phase. */
  function StepsTaken(phase: ClientPhase, done: nat): nat {
    match phase
    case Fresh => 0
    case AwaitOk => 1
    case AtBarrier => 2
    case Looping => 3 + 3 * done
    case AwaitPayload => 4 + 3 * done
    case AwaitReply => 5 + 3 * done
    case Finished => 4 + 3 * done
    case Failed => 0
  }

  lemma ActionsLength(cfg: Config, c: nat, phase: ClientPhase, done: nat)
    requires c < |cfg.addrs|
    ensures |ActionsAt(cfg, c, phase, done)| == StepsTaken(phase, done)
  {
    hide Rounds, Round;
    RoundsLength(cfg, c, done);
  }

  /** What the counts of client c are, by its view. */
  lemma CountsOf(cfg: Config, s: State, c: nat)
    requires cfg.Valid() && Inv(cfg, s) && Histories(cfg, s) && c < cfg.N()
    ensures var v := ViewOf(cfg, s, c);
            var d := Done(cfg, c, v);
            && 0 <= d <= cfg.iters[c]
            && |s.clients[c].actions| == StepsTaken(v.phase, d)
            && TransfersReceived(cfg, c, v) >= 0
            && |RequestsFrom(s.log, c)| ==
               (if StartReceived(v) then 1 else 0) + TransfersReceived(cfg, c, v) + (if StopReceived(v) then 1 else 0)
  {
    hide TransferRequest, ActionsAt, RequestsFrom, ParcelsTo, Central;
    var v := ViewOf(cfg, s, c);
    assert Local(cfg, c, v, Late(s)) && ClientHistory(cfg, s, c) && ServerHistory(cfg, s, c);
    ActionsLength(cfg, c, v.phase, Done(cfg, c, v));
  }

  // ---- Enabled is allowed ----

  /** Whether client c may move, said by its view. */
  lemma ClientMayByView(cfg: Config, run: seq<Label>, s: State, c: nat)
    requires cfg.Valid() && Inv(cfg, s) && Histories(cfg, s) && Tied(cfg, run, s) && c < cfg.N()
    requires !s.clients[c].phase.AtBarrier?
    ensures ClientMay(cfg, run, c) <==> ClientEnabled(cfg, s, c)
  {
    hide TransferRequest, RequestsFrom, Central, Histories, FirstMatch, AllArrived, TurnAfter, Moves, Receipts;
    CountsOf(cfg, s, c);
    var v := ViewOf(cfg, s, c);
    assert Local(cfg, c, v, Late(s));
    OwnParcelMatches(cfg, c);
    assert FirstMatch([], c) == 0;
  }

  lemma BarrierByCounts(cfg: Config, run: seq<Label>, s: State, c: nat)
    requires cfg.Valid() && Inv(cfg, s) && Histories(cfg, s) && Tied(cfg, run, s) && c < cfg.N()
    requires s.clients[c].phase.AtBarrier?
    ensures ClientMay(cfg, run, c) <==> ClientEnabled(cfg, s, c)
  {
    hide TransferRequest, RequestsFrom, Central, Histories, TurnAfter, Moves, Receipts;
    CountsOf(cfg, s, c);
    forall d | 0 <= d < cfg.N() ensures Moves(run, d) >= 2 <==> HasArrived(s.clients[d].phase) {
      CountsOf(cfg, s, d);
      assert Local(cfg, d, ViewOf(cfg, s, d), Late(s));
    }
  }

  lemma ReceiveByCounts(cfg: Config, run: seq<Label>, s: State, c: nat)
    requires cfg.Valid() && Inv(cfg, s) && Histories(cfg, s) && Tied(cfg, run, s) && c < cfg.N()
    ensures May(cfg, run, ServerReceives(c)) <==> ReceiveEnabled(cfg, s, c)
  {
    hide TransferRequest, RequestsFrom, Histories, AllArrived, TurnAfter, Moves, Receipts;
    CountsOf(cfg, s, c);
    assert Local(cfg, c, ViewOf(cfg, s, c), Late(s));
    if s.server.mode.Stopped? {
      StoppedIsFinal(cfg, s);
    }
  }

  lemma ServerByCounts(cfg: Config, run: seq<Label>, s: State)
    requires cfg.Valid() && Inv(cfg, s) && Histories(cfg, s) && Tied(cfg, run, s)
    ensures May(cfg, run, ServerMoves) <==> ServerEnabled(cfg, s)
  {
    hide TransferRequest, RequestsFrom, Histories, AllArrived, TurnAfter, Moves, Receipts;
    if !s.phase.Idle? {
      var c := s.phase.peer;
      CountsOf(cfg, s, c);
      assert Local(cfg, c, ViewOf(cfg, s, c), Late(s));
    }
  }

  lemma MayIsEnabled(cfg: Config, run: seq<Label>, s: State, l: Label)
    requires cfg.Valid() && Inv(cfg, s) && Histories(cfg, s) && Tied(cfg, run, s)
    ensures May(cfg, run, l) <==> Enabled(cfg, s, l)
  {
    hide Histories, Tied, ClientMay, ClientEnabled, ReceiveEnabled, ServerEnabled, TurnAfter, Receipts, Moves, Local, Central;
    match l
    case ClientMoves(c) =>
      if c < cfg.N() {
        if s.clients[c].phase.AtBarrier? {
          BarrierByCounts(cfg, run, s, c);
        } else {
          ClientMayByView(cfg, run, s, c);
        }
      } else {
        NoSuchClient(cfg, run, c);
      }
    case ServerReceives(c) =>
      if c < cfg.N() {
        ReceiveByCounts(cfg, run, s, c);
      }
    case ServerMoves => ServerByCounts(cfg, run, s);
  }

  lemma NoSuchClient(cfg: Config, run: seq<Label>, c: nat)
    requires c >= cfg.N()
    ensures !ClientMay(cfg, run, c)
  {
  }

  // ---- Counts are kept ----

  lemma ClientKeepsTied(cfg: Config, run: seq<Label>, s: State, c: nat)
    requires Shaped(cfg, s) && Tied(cfg, run, s) && c < cfg.N() && ClientEnabled(cfg, s, c)
    ensures Tied(cfg, run + [ClientMoves(c)], StepClient(cfg, s, c))
  {
    hide TurnAfter, Moves, Receipts, StepClient, ClientEnabled, RequestsFrom;
    var l := ClientMoves(c);
    OneMoreTurn(cfg, run, l);
    ClientKeepsServer(cfg, s, c);
    StepIsAdvance(cfg, s, c);
    forall d | 0 <= d < cfg.N()
      ensures Moves(run + [l], d) == |StepClient(cfg, s, c).clients[d].actions|
      ensures Receipts(run + [l], d) == |RequestsFrom(s.log, d)|
    {
      OneMore(cfg, run, l, d);
      if d != c {
        ClientFrame(cfg, s, c, d);
      }
    }
  }

  lemma ReceiveKeepsTied(cfg: Config, run: seq<Label>, s: State, c: nat)
    requires cfg.Valid() && Inv(cfg, s) && Histories(cfg, s) && Tied(cfg, run, s) && c < cfg.N() && ReceiveEnabled(cfg, s, c)
    ensures Tied(cfg, run + [ServerReceives(c)], StepReceive(cfg, s, c))
  {
    var l, s' := ServerReceives(c), StepReceive(cfg, s, c);
    ReceivedPhase(cfg, s, c);
    hide TurnAfter, Moves, Receipts, StepReceive, ReceiveEnabled, RequestsFrom, Inv, Histories;
    OneMoreTurn(cfg, run, l);
    ReceiveOutside(cfg, s, c);
    forall d | 0 <= d < cfg.N()
      ensures Moves(run + [l], d) == |s'.clients[d].actions| && Receipts(run + [l], d) == |RequestsFrom(s'.log, d)|
    {
      OneMore(cfg, run, l, d);
      OneMoreLogged(s.log, Envelope(c, s.inbox[c][0]), d);
    }
  }

  lemma OneMoreLogged(log: seq<Envelope>, e: Envelope, c: nat)
    ensures |RequestsFrom(log + [e], c)| == |RequestsFrom(log, c)| + if e.peer == c then 1 else 0
  {
    assert (log + [e])[..|log|] == log;
  }

  /** The server is where the number of the request received says. */
  lemma ReceivedPhase(cfg: Config, s: State, c: nat)
    requires cfg.Valid() && Inv(cfg, s) && Histories(cfg, s) && c < cfg.N() && ReceiveEnabled(cfg, s, c)
    ensures PhaseIs(Occupied(c, StepsFor(cfg, c, |RequestsFrom(s.log, c)| + 1)), StepReceive(cfg, s, c).phase)
  {
    hide TransferRequest, Handle, RequestsFrom, Histories, Central, AllArrived;
    RequestsAreHandled(cfg, s, c);
    CountsOf(cfg, s, c);
    assert Local(cfg, c, ViewOf(cfg, s, c), Late(s));
  }

  lemma ServerKeepsTied(cfg: Config, run: seq<Label>, s: State)
    requires Shaped(cfg, s) && Tied(cfg, run, s) && ServerEnabled(cfg, s)
    ensures Tied(cfg, run + [ServerMoves], StepServer(cfg, s))
  {
    hide TurnAfter, Moves, Receipts, RequestsFrom, Finish;
    OneMoreTurn(cfg, run, ServerMoves);
    var s' := StepServer(cfg, s);
    forall d | 0 <= d < cfg.N()
      ensures Moves(run + [ServerMoves], d) == |s'.clients[d].actions|
      ensures Receipts(run + [ServerMoves], d) == |RequestsFrom(s'.log, d)|
    {
      OneMore(cfg, run, ServerMoves, d);
    }
  }

  lemma {:induction false} RunsAreTied(cfg: Config, run: seq<Label>)
    requires cfg.Valid() && After(cfg, run).Some?
    ensures var s := After(cfg, run).value; Inv(cfg, s) && Histories(cfg, s) && Tied(cfg, run, s)
  {
    ReachableHistories(cfg, run);
    if run != [] {
      hide Inv, Histories, Tied, StepClient, StepReceive, StepServer, ClientEnabled, ReceiveEnabled, ServerEnabled;
      var before, l := run[..|run| - 1], run[|run| - 1];
      RunsAreTied(cfg, before);
      var s := After(cfg, before).value;
      assert run == before + [l];
      match l {
        case ClientMoves(c) => ClientKeepsTied(cfg, before, s, c);
        case ServerReceives(c) => ReceiveKeepsTied(cfg, before, s, c);
        case ServerMoves => ServerKeepsTied(cfg, before, s);
      }
    }
  }

  /** The runs are exactly the sequences of steps in which everyone goes on as the definition allows: in particular clients
      start in any order, and the server receives the waiting requests in any order. */
  lemma {:induction false} RunsExactly(cfg: Config, run: seq<Label>)
    requires cfg.Valid()
    ensures After(cfg, run).Some? <==> Legal(cfg, run)
  {
    hide May, Enabled, Step, Inv, Histories, Tied;
    if run != [] {
      var before, l := run[..|run| - 1], run[|run| - 1];
      RunsExactly(cfg, before);
      if After(cfg, before).Some? {
        RunsAreTied(cfg, before);
        MayIsEnabled(cfg, before, After(cfg, before).value, l);
      }
    }
  }
}

/** The shape of the server's log of requests, its replies, and the table that goes with them. */
module ServerLog {
  import opened Wrappers
  import opened Bytes
  import opened Messages
  import opened ServerModel
  import opened Protocol
  import opened Invariant
  import opened History

  function ReplyFor(r: Request): Reply {
    if r.msgType == 0 then StartOk else if r.msgType == 1 then IterOk else DisconnectOk
  }

  predicate GoodEntry(cfg: Config, e: Envelope) {
    e.peer < cfg.N() && e.request.rank == e.peer && e.request.msgType in {0, 1, 2}
  }

  /** One START a client, all before any other request. */
  predicate StartsFirst(cfg: Config, s: State) {
    if !Late(s) then forall i | 0 <= i < |s.log| :: s.log[i].request.msgType == 0
    else
      && |s.log| >= cfg.N()
      && (forall i | 0 <= i < cfg.N() :: s.log[i].request.msgType == 0)
      && (forall i | cfg.N() <= i < |s.log| :: s.log[i].request.msgType != 0)
  }

  /** The server strictly alternates receive and reply; every reply goes to the client whose request was received last
      and is of the kind that request asks for. */
  predicate RepliesMatch(s: State) {
    && |s.server.replies| == |s.log| - (if s.phase.Idle? then 0 else 1)
    && (forall i | 0 <= i < |s.server.replies| :: s.server.replies[i] == Routed(s.log[i].peer, ReplyFor(s.log[i].request)))
    && (!s.phase.Idle? ==>
          var e := s.log[|s.log| - 1];
          e.peer == s.phase.peer && ReplyFor(e.request) == if s.phase.Replying? then s.phase.reply else IterOk)
  }

  /** Everything sent on the data channel goes to a client's worker, under its tag, with the server's buffer. */
  predicate GoodDispatch(cfg: Config, d: Dispatch) {
    d.worker < cfg.N() && d.parcel == Payload(cfg, d.worker)
  }

  predicate LogShape(cfg: Config, s: State) {
    && (forall i | 0 <= i < |s.log| :: GoodEntry(cfg, s.log[i]))
    && (forall i | 0 <= i < |s.server.dispatched| :: GoodDispatch(cfg, s.server.dispatched[i]))
    && StartsFirst(cfg, s)
    && RepliesMatch(s)
  }

  // ---- Counting ----

  function TotalRequests(log: seq<Envelope>, n: nat): nat {
    if n == 0 then 0 else TotalRequests(log, n - 1) + |RequestsFrom(log, n - 1)|
  }

  lemma {:induction false} TotalGrows(log: seq<Envelope>, e: Envelope, n: nat)
    ensures TotalRequests(log + [e], n) == TotalRequests(log, n) + if e.peer < n then 1 else 0
  {
    assert (log + [e])[..|log|] == log;
    if n > 0 {
      TotalGrows(log, e, n - 1);
    }
  }

  lemma {:induction false} TotalOfNothing(n: nat)
    ensures TotalRequests([], n) == 0
  {
    if n > 0 {
      TotalOfNothing(n - 1);
    }
  }

  /** No request is lost: the log is as long as the requests of all clients together. */
  lemma {:induction false} LogIsTotal(log: seq<Envelope>, n: nat)
    requires forall i | 0 <= i < |log| :: log[i].peer < n
    ensures |log| == TotalRequests(log, n)
  {
    if log == [] {
      TotalOfNothing(n);
    } else {
      var rest := log[..|log| - 1];
      LogIsTotal(rest, n);
      TotalGrows(rest, log[|log| - 1], n);
      assert rest + [log[|log| - 1]] == log;
    }
  }

  lemma {:induction false} TotalOfOnes(log: seq<Envelope>, n: nat)
    requires forall c | 0 <= c < n :: |RequestsFrom(log, c)| == 1
    ensures TotalRequests(log, n) == n
  {
    if n > 0 {
      TotalOfOnes(log, n - 1);
    }
  }

  // ---- The shape is kept ----

  lemma InitialShape(cfg: Config)
    requires cfg.Valid()
    ensures LogShape(cfg, Initial(cfg))
  {
  }

  lemma NextRequest(cfg: Config, s: State, c: nat)
    requires cfg.Valid() && Inv(cfg, s) && c < cfg.N() && ReceiveEnabled(cfg, s, c)
    ensures var r := s.inbox[c][0];
            && r.rank == c && r.msgType in {0, 1, 2} && (r.msgType == 0 <==> !Late(s))
            && ReplyFor(r) == (match ExpectedWork(cfg, s.server.active, c, s.clients[c].phase)
                               case Acknowledge(_, reply) => reply
                               case Send(_, _) => IterOk
                               case Throw(_) => IterOk)
  {
    assert Local(cfg, c, ViewOf(cfg, s, c), Late(s));
  }

  lemma ReceiveShape(cfg: Config, s: State, c: nat)
    requires cfg.Valid() && Inv(cfg, s) && LogShape(cfg, s) && c < cfg.N() && ReceiveEnabled(cfg, s, c)
    ensures LogShape(cfg, StepReceive(cfg, s, c))
  {
    hide Handle, Inv;
    RequestsAreHandled(cfg, s, c);
    NextRequest(cfg, s, c);
  }

  lemma StartLoopLog(cfg: Config, s: State)
    requires cfg.Valid() && Inv(cfg, s) && Histories(cfg, s) && LogShape(cfg, s)
    requires ServerEnabled(cfg, s) && !Late(s) && Late(StepServer(cfg, s))
    ensures |s.log| == cfg.N()
  {
    forall c | 0 <= c < cfg.N() ensures |RequestsFrom(s.log, c)| == 1 {
      assert Local(cfg, c, ViewOf(cfg, s, c), false) && s.server.active[c];
      assert ServerHistory(cfg, s, c);
    }
    assert forall i | 0 <= i < |s.log| :: GoodEntry(cfg, s.log[i]);
    LogIsTotal(s.log, cfg.N());
    TotalOfOnes(s.log, cfg.N());
  }

  lemma SendsOwnPayload(cfg: Config, s: State)
    requires Inv(cfg, s) && s.phase.Sending?
    ensures GoodDispatch(cfg, Dispatch(s.phase.worker, s.phase.parcel))
  {
    hide TransferRequest, AllActive, NoneActive;
    assert Local(cfg, s.phase.peer, ViewOf(cfg, s, s.phase.peer), Late(s));
  }

  lemma ServerReplyShape(cfg: Config, s: State)
    requires Shaped(cfg, s) && ServerEnabled(cfg, s) && RepliesMatch(s) && s.log != []
    ensures RepliesMatch(StepServer(cfg, s))
  {
    hide AllActive, NoneActive;
  }

  lemma ServerShape(cfg: Config, s: State)
    requires cfg.Valid() && Inv(cfg, s) && Histories(cfg, s) && LogShape(cfg, s) && ServerEnabled(cfg, s)
    ensures LogShape(cfg, StepServer(cfg, s))
  {
    hide Local, Central, Histories, RepliesMatch, AllActive, NoneActive;
    if s.phase.Sending? {
      SendsOwnPayload(cfg, s);
    }
    if !Late(s) && Late(StepServer(cfg, s)) {
      StartLoopLog(cfg, s);
    }
    BusyHasLog(cfg, s);
    ServerReplyShape(cfg, s);
  }

  lemma BusyHasLog(cfg: Config, s: State)
    requires Shaped(cfg, s) && ServerEnabled(cfg, s) && RepliesMatch(s)
    ensures s.log != []
  {
  }

  lemma StepShape(cfg: Config, s: State, l: Label)
    requires cfg.Valid() && Inv(cfg, s) && Histories(cfg, s) && LogShape(cfg, s) && Enabled(cfg, s, l)
    ensures LogShape(cfg, Step(cfg, s, l))
  {
    match l
    case ClientMoves(c) => ClientKeepsServer(cfg, s, c);
    case ServerReceives(c) => ReceiveShape(cfg, s, c);
    case ServerMoves => ServerShape(cfg, s);
  }

  lemma ClientKeepsServer(cfg: Config, s: State, c: nat)
    requires Shaped(cfg, s) && c < cfg.N() && ClientEnabled(cfg, s, c)
    ensures var s' := StepClient(cfg, s, c); s'.log == s.log && s'.server == s.server && s'.phase == s.phase
  {
    hide TransferRequest, FirstMatch, AllArrived;
  }

  lemma {:induction false} ReachableShape(cfg: Config, run: seq<Label>)
    requires cfg.Valid() && After(cfg, run).Some?
    ensures var s := After(cfg, run).value; Inv(cfg, s) && Histories(cfg, s) && LogShape(cfg, s)
  {
    ReachableHistories(cfg, run);
    if run == [] {
      InitialShape(cfg);
    } else {
      var before := run[..|run| - 1];
      ReachableShape(cfg, before);
      StepShape(cfg, After(cfg, before).value, run[|run| - 1]);
    }
  }

  // ---- The table counts STARTs minus STOPs ----

  function ActiveCount(active: seq<bool>): nat {
    if active == [] then 0
    else ActiveCount(active[..|active| - 1]) + if active[|active| - 1] then 1 else 0
  }

  function TypeCount(log: seq<Envelope>, msgType: int): nat {
    if log == [] then 0
    else TypeCount(log[..|log| - 1], msgType) + if log[|log| - 1].request.msgType == msgType then 1 else 0
  }

  lemma TypeCountMore(log: seq<Envelope>, e: Envelope, msgType: int)
    ensures TypeCount(log + [e], msgType) == TypeCount(log, msgType) + if e.request.msgType == msgType then 1 else 0
  {
    assert (log + [e])[..|log|] == log;
  }

  lemma {:induction false} CountUpdate(active: seq<bool>, c: nat, x: bool)
    requires c < |active|
    ensures ActiveCount(active[c := x]) - ActiveCount(active) == (if x then 1 else 0) - (if active[c] then 1 else 0)
  {
    var last := |active| - 1;
    if c < last {
      CountUpdate(active[..last], c, x);
      assert active[c := x][..last] == active[..last][c := x];
    } else {
      assert active[c := x][..last] == active[..last];
    }
  }

  lemma {:induction false} NoneCounted(n: nat)
    ensures ActiveCount(Repeat(n, false)) == 0
  {
    if n > 0 {
      NoneCounted(n - 1);
      assert Repeat(n, false)[..n - 1] == Repeat(n - 1, false);
    }
  }

  predicate TableCounts(s: State) {
    ActiveCount(s.server.active) == TypeCount(s.log, 0) - TypeCount(s.log, 2)
  }

  /** What receiving a request does to the log and the table. */
  lemma ReceiveTable(cfg: Config, s: State, c: nat)
    requires cfg.Valid() && Inv(cfg, s) && c < cfg.N() && ReceiveEnabled(cfg, s, c)
    ensures var s' := StepReceive(cfg, s, c);
            var active, active' := s.server.active, s'.server.active;
            var r := s.inbox[c][0];
            && s'.log == s.log + [Envelope(c, r)]
            && match s.clients[c].phase
               case AwaitOk => r.msgType == 0 && !active[c] && active' == active[c := true]
               case AwaitPayload => r.msgType == 1 && active' == active
               case _ => r.msgType == 2 && active[c] && active' == active[c := false]
  {
    hide Handle, Central;
    assert Local(cfg, c, ViewOf(cfg, s, c), Late(s));
    RequestsAreHandled(cfg, s, c);
  }

  lemma ReceiveCounts(cfg: Config, s: State, c: nat)
    requires cfg.Valid() && Inv(cfg, s) && TableCounts(s) && c < cfg.N() && ReceiveEnabled(cfg, s, c)
    ensures TableCounts(StepReceive(cfg, s, c))
  {
    ReceiveTable(cfg, s, c);
    hide Inv, StepReceive, ReceiveEnabled, ActiveCount, TypeCount;
    TypeCountMore(s.log, Envelope(c, s.inbox[c][0]), 0);
    TypeCountMore(s.log, Envelope(c, s.inbox[c][0]), 2);
    CountUpdate(s.server.active, c, true);
    CountUpdate(s.server.active, c, false);
  }

  /** In every reachable state the active entries are the STARTs received minus the STOPs received. */
  lemma {:induction false} ActiveTable(cfg: Config, run: seq<Label>)
    requires cfg.Valid() && After(cfg, run).Some?
    ensures TableCounts(After(cfg, run).value)
  {
    if run == [] {
      NoneCounted(cfg.N());
    } else {
      var before, l := run[..|run| - 1], run[|run| - 1];
      var s := After(cfg, before).value;
      Reachable(cfg, before);
      ActiveTable(cfg, before);
      match l {
        case ClientMoves(c) => ClientKeepsServer(cfg, s, c);
        case ServerReceives(c) => ReceiveCounts(cfg, s, c);
        case ServerMoves => assert Step(cfg, s, l).server.active == s.server.active;
      }
    }
  }

  // ---- The log replayed one request at a time ----

  /** The server once the iteration in progress is over. */
  function Completed(cfg: Config, s: State): ServerVars {
    match s.phase
    case Idle => s.server
    case Sending(peer, worker, parcel) => Finish(HangUp(Transmit(s.server, worker, parcel)), peer, IterOk)
    case Waiting(peer, _, _) => Finish(HangUp(s.server), peer, IterOk)
    case Replying(peer, reply) => Finish(s.server, peer, reply)
  }

  /** The interleaved server is the sequential one: it is in the state that serving its log request by request gives. */
  lemma {:induction false} LogReplays(cfg: Config, run: seq<Label>)
    requires |cfg.addrs| == cfg.N() && After(cfg, run).Some?
    ensures var s := After(cfg, run).value; Completed(cfg, s) == Replay(cfg, InitialServer(cfg.N()), s.log)
  {
    if run != [] {
      var before, l := run[..|run| - 1], run[|run| - 1];
      var s := After(cfg, before).value;
      LogReplays(cfg, before);
      match l {
        case ClientMoves(c) => ClientKeepsServer(cfg, s, c);
        case ServerReceives(c) => ReceiveReplays(cfg, s, c);
        case ServerMoves => ServerReplays(cfg, s);
      }
    }
  }

  lemma ReceiveReplays(cfg: Config, s: State, c: nat)
    requires Shaped(cfg, s) && c < cfg.N() && ReceiveEnabled(cfg, s, c)
    requires s.server == Replay(cfg, InitialServer(cfg.N()), s.log)
    ensures var s' := StepReceive(cfg, s, c); Completed(cfg, s') == Replay(cfg, InitialServer(cfg.N()), s'.log)
  {
    hide Handle, LoopTest, Check;
    var s' := StepReceive(cfg, s, c);
    assert s'.log[..|s'.log| - 1] == s.log;
  }

  lemma ServerReplays(cfg: Config, s: State)
    requires Shaped(cfg, s) && ServerEnabled(cfg, s)
    ensures var s' := StepServer(cfg, s); Completed(cfg, s') == Completed(cfg, s) && s'.log == s.log
  {
    hide Finish;
  }

  lemma {:induction false} CountIsFull(active: seq<bool>)
    ensures ActiveCount(active) <= |active|
    ensures ActiveCount(active) == |active| <==> AllActive(active)
  {
    if active != [] {
      var rest := active[..|active| - 1];
      CountIsFull(rest);
      assert forall i | 0 <= i < |rest| :: rest[i] == active[i];
    }
  }

  lemma {:induction false} OnlyStarts(log: seq<Envelope>)
    requires forall i | 0 <= i < |log| :: log[i].request.msgType == 0
    ensures TypeCount(log, 0) == |log| && TypeCount(log, 2) == 0
  {
    if log != [] {
      OnlyStarts(log[..|log| - 1]);
    }
  }

  /** Between iterations the start loop goes on exactly while fewer requests than clients were received. */
  lemma StartLoopLength(cfg: Config, run: seq<Label>)
    requires cfg.Valid() && After(cfg, run).Some? && After(cfg, run).value.phase.Idle?
    ensures var s := After(cfg, run).value; !Late(s) <==> |s.log| < cfg.N()
  {
    var s := After(cfg, run).value;
    ReachableShape(cfg, run);
    ActiveTable(cfg, run);
    if !Late(s) {
      OnlyStarts(s.log);
      CountIsFull(s.server.active);
    }
  }

  /** Serving the log one request at a time, the start loop takes exactly the first N and the run loop all the others. */
  lemma {:induction false} LoopLengths(cfg: Config, run: seq<Label>, k: nat)
    requires cfg.Valid() && After(cfg, run).Some? && k < |After(cfg, run).value.log|
    ensures Replay(cfg, InitialServer(cfg.N()), After(cfg, run).value.log[..k]).mode ==
            if k < cfg.N() then Starting else Serving
  {
    hide Replay, StepClient, StepServer;
    var before, l := run[..|run| - 1], run[|run| - 1];
    var s := After(cfg, before).value;
    match l {
      case ClientMoves(c) =>
        ClientKeepsServer(cfg, s, c);
        LoopLengths(cfg, before, k);
      case ServerReceives(c) =>
        if k < |s.log| {
          LoopLengths(cfg, before, k);
          assert Step(cfg, s, l).log[..k] == s.log[..k];
        } else {
          assert Step(cfg, s, l).log[..k] == s.log;
          LogReplays(cfg, before);
          StartLoopLength(cfg, before);
        }
      case ServerMoves =>
        ServerReplays(cfg, s);
        LoopLengths(cfg, before, k);
    }
  }

  // ---- The order of the server's actions ----

  /** Everything done for one entry of the log, spelled out. */
  function ActionsFor(cfg: Config, e: Envelope): seq<Action> {
    if e.request.msgType == 1 then
      var d := Dispatch(e.peer, Parcel(e.peer, cfg.data));
      [RecvRequest(e), OpenEndpoint(e.peer), SendParcel(d), AwaitSend, CloseEndpoint, ReleaseAddress,
       SendReply(Routed(e.peer, IterOk))]
    else
      [RecvRequest(e), SendReply(Routed(e.peer, if e.request.msgType == 0 then StartOk else DisconnectOk))]
  }

  function AllActions(cfg: Config, log: seq<Envelope>): seq<Action> {
    if log == [] then [] else AllActions(cfg, log[..|log| - 1]) + ActionsFor(cfg, log[|log| - 1])
  }

  lemma FinishActions(cfg: Config, s: State)
    ensures Completed(cfg, s).actions == s.server.actions +
            match s.phase
            case Idle => []
            case Sending(peer, worker, parcel) =>
              [OpenEndpoint(worker), SendParcel(Dispatch(worker, parcel)), AwaitSend, CloseEndpoint, ReleaseAddress,
               SendReply(Routed(peer, IterOk))]
            case Waiting(peer, _, _) => [AwaitSend, CloseEndpoint, ReleaseAddress, SendReply(Routed(peer, IterOk))]
            case Replying(peer, reply) => [SendReply(Routed(peer, reply))]
  {
    hide AllActive, NoneActive;
  }

  lemma ReceiveActions(cfg: Config, s: State, c: nat)
    requires cfg.Valid() && Inv(cfg, s) && c < cfg.N() && ReceiveEnabled(cfg, s, c)
    ensures var s' := StepReceive(cfg, s, c);
            Completed(cfg, s').actions == s.server.actions + ActionsFor(cfg, Envelope(c, s.inbox[c][0]))
  {
    hide Handle, Completed, Local, Central;
    NextRequest(cfg, s, c);
    RequestsAreHandled(cfg, s, c);
    TypeByPhase(cfg, s, c);
    FinishActions(cfg, StepReceive(cfg, s, c));
  }

  lemma TypeByPhase(cfg: Config, s: State, c: nat)
    requires cfg.Valid() && Inv(cfg, s) && c < cfg.N() && ReceiveEnabled(cfg, s, c)
    ensures s.inbox[c][0].msgType == match s.clients[c].phase case AwaitOk => 0 case AwaitPayload => 1 case _ => 2
  {
    assert Local(cfg, c, ViewOf(cfg, s, c), Late(s));
  }

  /** In every run the server has done, in order, exactly what its log asks for, up to where it is in the last entry: for a
      TRANSFER the payload is sent, awaited and the endpoint closed before the reply. */
  lemma {:induction false} ServerOrder(cfg: Config, run: seq<Label>)
    requires cfg.Valid() && After(cfg, run).Some?
    ensures var s := After(cfg, run).value;
            && s.server.actions <= AllActions(cfg, s.log)
            && (s.phase.Idle? ==> s.server.actions == AllActions(cfg, s.log))
            && Completed(cfg, s).actions == AllActions(cfg, s.log)
  {
    hide StepClient, StepServer, StepReceive, Completed, ActionsFor;
    FinishActions(cfg, After(cfg, run).value);
    if run == [] {
    } else {
      var before, l := run[..|run| - 1], run[|run| - 1];
      var s := After(cfg, before).value;
      ServerOrder(cfg, before);
      Reachable(cfg, before);
      match l {
        case ClientMoves(c) =>
          ClientKeepsServer(cfg, s, c);
          FinishActions(cfg, s);
        case ServerReceives(c) =>
          ReceiveActions(cfg, s, c);
          ReceiveLogs(cfg, s, c);
          assert (s.log + [Envelope(c, s.inbox[c][0])])[..|s.log|] == s.log;
        case ServerMoves => ServerReplays(cfg, s);
      }
    }
  }

  lemma ReceiveLogs(cfg: Config, s: State, c: nat)
    requires Shaped(cfg, s) && c < cfg.N() && ReceiveEnabled(cfg, s, c)
    ensures s.phase.Idle? && s.inbox[c] != [] && StepReceive(cfg, s, c).log == s.log + [Envelope(c, s.inbox[c][0])]
  {
    hide Handle;
  }
}

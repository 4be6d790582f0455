/** What holds of every run of the benchmark. */
module ProtocolTheorems {
  import opened Wrappers
  import opened Bytes
  import opened Messages
  import opened ServerModel
  import opened Protocol
  import opened Invariant
  import opened History
  import opened ServerLog
  import opened Progress
  import Base64
  import Base64InPlace
  import Base64Lengths

  /** The server never throws and no client ever does, for every number of clients and every interleaving. */
  lemma NoThrow(cfg: Config, run: seq<Label>)
    requires cfg.Valid() && After(cfg, run).Some?
    ensures var s := After(cfg, run).value;
            !s.server.mode.Thrown? && forall c | 0 <= c < cfg.N() :: !s.clients[c].phase.Failed?
  {
    Reachable(cfg, run);
    var s := After(cfg, run).value;
    forall c | 0 <= c < cfg.N() ensures !s.clients[c].phase.Failed? {
      assert Local(cfg, c, ViewOf(cfg, s, c), Late(s));
    }
  }

  /** The state in which client c has gone past the barrier although the server is still in its start loop. */
  function LeavesEarly(s: State, c: nat): State
    requires c < |s.clients|
  {
    s.(clients := s.clients[c := s.clients[c].(phase := Looping)])
  }

  predicate CanLeaveEarly(s: State, c: nat)
    requires c < |s.clients|
  {
    s.server.mode.Starting? && s.phase.Idle? && s.clients[c].phase.AtBarrier?
  }

  /** The barrier is what the server's start loop relies on: a client that left it early would make the server throw. */
  lemma BarrierIsNeeded(cfg: Config, s: State, c: nat)
    requires cfg.Valid() && Inv(cfg, s) && c < cfg.N() && CanLeaveEarly(s, c)
    ensures var sent := StepClient(cfg, LeavesEarly(s, c), c);
            ReceiveEnabled(cfg, sent, c) && StepReceive(cfg, sent, c).server.mode == Thrown(InvalidStart)
  {
    hide TransferRequest, AllArrived;
    assert Local(cfg, c, ViewOf(cfg, s, c), false);
    TransferIsNoStart(cfg, c);
  }

  lemma TransferIsNoStart(cfg: Config, c: nat)
    requires c < |cfg.addrs|
    ensures TransferRequest(cfg, c).msgType == 1
  {
  }

  // ---- The trace of the server ----

  function SumOfIters(iters: seq<nat>): nat {
    if iters == [] then 0 else SumOfIters(iters[..|iters| - 1]) + iters[|iters| - 1]
  }

  lemma {:induction false} RequestsFromSplit(a: seq<Envelope>, b: seq<Envelope>, c: nat)
    ensures RequestsFrom(a + b, c) == RequestsFrom(a, c) + RequestsFrom(b, c)
  {
    if b == [] {
      assert a + b == a && RequestsFrom(a, c) + [] == RequestsFrom(a, c);
    } else {
      var b' := b[..|b| - 1];
      RequestsFromSplit(a, b', c);
      assert (a + b)[..|a + b| - 1] == a + b';
    }
  }

  lemma {:induction false} RequestsFromType(log: seq<Envelope>, c: nat, start: bool)
    requires forall i | 0 <= i < |log| :: log[i].request.msgType == 0 <==> start
    ensures forall i | 0 <= i < |RequestsFrom(log, c)| :: RequestsFrom(log, c)[i].msgType == 0 <==> start
  {
    if log != [] {
      RequestsFromType(log[..|log| - 1], c, start);
    }
  }

  /** A script that begins with START, cut where the STARTs end. */
  lemma CutAfterStart(a: seq<Request>, b: seq<Request>, first: Request, rest: seq<Request>)
    requires a + b == [first] + rest && first.msgType == 0
    requires forall i | 0 <= i < |rest| :: rest[i].msgType != 0
    requires forall i | 0 <= i < |a| :: a[i].msgType == 0
    requires forall i | 0 <= i < |b| :: b[i].msgType != 0
    ensures a == [first] && b == rest
  {
    var whole := a + b;
    assert forall i | 0 <= i < |a| :: whole[i] == a[i];
    assert forall i | |a| <= i < |whole| :: whole[i] == b[i - |a|];
    assert whole[0] == first;
    assert forall i | 1 <= i < |whole| :: whole[i] == rest[i - 1];
    assert |a| <= 1 by {
      assert |whole| > 1 ==> whole[1].msgType != 0;
    }
    assert b == (a + b)[1..] == rest;
  }

  /** A log of STARTs and then other requests, cut between them, and what that does to one client's part. */
  lemma CutLog(log: seq<Envelope>, n: nat, c: nat, first: Request, rest: seq<Request>)
    requires n <= |log| && RequestsFrom(log, c) == [first] + rest
    requires forall i | 0 <= i < n :: log[i].request.msgType == 0
    requires forall i | n <= i < |log| :: log[i].request.msgType != 0
    requires first.msgType == 0 && forall i | 0 <= i < |rest| :: rest[i].msgType != 0
    ensures RequestsFrom(log[..n], c) == [first] && RequestsFrom(log[n..], c) == rest
  {
    hide RequestsFrom;
    assert log[..n] + log[n..] == log;
    RequestsFromSplit(log[..n], log[n..], c);
    RequestsFromType(log[..n], c, true);
    RequestsFromType(log[n..], c, false);
    CutAfterStart(RequestsFrom(log[..n], c), RequestsFrom(log[n..], c), first, rest);
  }

  lemma ScriptAfterStart(cfg: Config, c: nat, n: nat, stopped: bool)
    requires c < |cfg.addrs|
    ensures Script(cfg, c, true, n, stopped) == [StartRequest(c)] + Script(cfg, c, false, n, stopped)
    ensures forall i | 0 <= i < |Script(cfg, c, false, n, stopped)| :: Script(cfg, c, false, n, stopped)[i].msgType != 0
  {
    TransferIsNoStart(cfg, c);
    hide TransferRequest;
  }

  /** Once the server is in its run loop, each client's START was received, and its STOP only after all its TRANSFERs. */
  lemma ReceivedLate(cfg: Config, s: State, c: nat)
    requires Inv(cfg, s) && Histories(cfg, s) && Late(s) && c < cfg.N()
    ensures var v := ViewOf(cfg, s, c);
            && 0 <= TransfersReceived(cfg, c, v) <= cfg.iters[c]
            && (StopReceived(v) ==> TransfersReceived(cfg, c, v) == cfg.iters[c])
            && RequestsFrom(s.log, c) == Script(cfg, c, true, TransfersReceived(cfg, c, v), StopReceived(v))
  {
    hide TransferRequest, Script, RequestsFrom, ParcelsTo, Central, ClientHistory;
    assert Local(cfg, c, ViewOf(cfg, s, c), true) && ServerHistory(cfg, s, c);
  }

  /** The log in the run loop: first one START from each client, then an interleaving whose projection on each client is
      TRANSFERs and at most one STOP at the end. */
  lemma TraceShape(cfg: Config, run: seq<Label>, c: nat)
    requires cfg.Valid() && After(cfg, run).Some? && Late(After(cfg, run).value) && c < cfg.N()
    ensures var s := After(cfg, run).value;
            var v := ViewOf(cfg, s, c);
            && |s.log| >= cfg.N()
            && RequestsFrom(s.log[..cfg.N()], c) == [StartRequest(c)]
            && 0 <= TransfersReceived(cfg, c, v) <= cfg.iters[c]
            && (StopReceived(v) ==> TransfersReceived(cfg, c, v) == cfg.iters[c])
            && RequestsFrom(s.log[cfg.N()..], c) == Script(cfg, c, false, TransfersReceived(cfg, c, v), StopReceived(v))
  {
    hide TransferRequest, Script, RequestsFrom, Inv, Histories, TransfersReceived, StopReceived, RepliesMatch;
    var s := After(cfg, run).value;
    var v := ViewOf(cfg, s, c);
    ReachableShape(cfg, run);
    ReceivedLate(cfg, s, c);
    ScriptAfterStart(cfg, c, TransfersReceived(cfg, c, v), StopReceived(v));
    CutLog(s.log, cfg.N(), c, StartRequest(c), Script(cfg, c, false, TransfersReceived(cfg, c, v), StopReceived(v)));
  }

  lemma {:induction false} TotalAtEnd(cfg: Config, s: State, n: nat)
    requires Inv(cfg, s) && Histories(cfg, s) && Final(s) && n <= cfg.N()
    ensures TotalRequests(s.log, n) == 2 * n + SumOfIters(cfg.iters[..n])
  {
    if n > 0 {
      TotalAtEnd(cfg, s, n - 1);
      assert cfg.iters[..n][..n - 1] == cfg.iters[..n - 1];
      StoppedIsFinal(cfg, s);
      assert Local(cfg, n - 1, ViewOf(cfg, s, n - 1), true) && ServerHistory(cfg, s, n - 1);
    }
  }

  /** A whole run: each client sends exactly its TRANSFERs and then one STOP, and the run loop is executed once for each of
      them, N + sum of iters times. */
  lemma WholeTrace(cfg: Config, run: seq<Label>)
    requires cfg.Valid() && After(cfg, run).Some? && Final(After(cfg, run).value)
    ensures var log := After(cfg, run).value.log;
            && |log| - cfg.N() == cfg.N() + SumOfIters(cfg.iters)
            && forall c | 0 <= c < cfg.N() ::
                 && RequestsFrom(log[..cfg.N()], c) == [StartRequest(c)]
                 && RequestsFrom(log[cfg.N()..], c) == Script(cfg, c, false, cfg.iters[c], true)
  {
    var s := After(cfg, run).value;
    ReachableShape(cfg, run);
    StoppedIsFinal(cfg, s);
    assert forall i | 0 <= i < |s.log| :: GoodEntry(cfg, s.log[i]);
    LogIsTotal(s.log, cfg.N());
    TotalAtEnd(cfg, s, cfg.N());
    assert cfg.iters[..cfg.N()] == cfg.iters;
    forall c | 0 <= c < cfg.N()
      ensures RequestsFrom(s.log[..cfg.N()], c) == [StartRequest(c)]
      ensures RequestsFrom(s.log[cfg.N()..], c) == Script(cfg, c, false, cfg.iters[c], true)
    {
      TraceShape(cfg, run, c);
      assert StopReceived(ViewOf(cfg, s, c));
    }
  }

  // ---- The requests, spelled out ----

  lemma {:induction false} InProjection(log: seq<Envelope>, i: nat)
    requires i < |log|
    ensures log[i].request in RequestsFrom(log, log[i].peer)
  {
    if i < |log| - 1 {
      InProjection(log[..|log| - 1], i);
    }
  }

  lemma TransferInFull(cfg: Config, c: nat)
    requires cfg.Valid() && c < cfg.N()
    ensures TransferRequest(cfg, c) ==
            Request(c, 1, Some(TransferBody(c, Base64.EncodingByGroups(Rfc4648(), cfg.addrs[c]) + [0],
                                            Base64Lengths.EncodedLength(|cfg.addrs[c]|))))
  {
    hide Base64.Encode, Base64.EncodingByGroups, Base64Lengths.EncodedLength, Rfc4648;
    Base64.EncodeByGroups(Rfc4648(), cfg.addrs[c]);
    Base64InPlace.EncodedLengthOf(Rfc4648(), cfg.addrs[c]);
  }

  lemma InScript(cfg: Config, c: nat, started: bool, n: nat, stopped: bool, r: Request)
    requires c < |cfg.addrs| && r in Script(cfg, c, started, n, stopped)
    ensures r == StartRequest(c) || r == TransferRequest(cfg, c) || r == StopRequest(c)
  {
    hide TransferRequest;
  }

  /** Every request the server ever receives, field by field: rank and type, and in a TRANSFER the client's rank as tag, its
      address in base64 with a NUL, and the length without the NUL. */
  lemma RequestsInFull(cfg: Config, run: seq<Label>, i: nat)
    requires cfg.Valid() && After(cfg, run).Some? && i < |After(cfg, run).value.log|
    ensures var e := After(cfg, run).value.log[i];
            var c := e.peer;
            && c < cfg.N()
            && (e.request == Request(c, 0, None)
                || e.request == Request(c, 2, None)
                || e.request == Request(c, 1, Some(TransferBody(c, Base64.EncodingByGroups(Rfc4648(), cfg.addrs[c]) + [0],
                                                                Base64Lengths.EncodedLength(|cfg.addrs[c]|)))))
  {
    hide TransferRequest, Script, RequestsFrom, ParcelsTo, ActionsAt, Central, ClientHistory;
    ReachableShape(cfg, run);
    var s := After(cfg, run).value;
    var c := s.log[i].peer;
    assert GoodEntry(cfg, s.log[i]);
    assert ServerHistory(cfg, s, c);
    var v := ViewOf(cfg, s, c);
    InProjection(s.log, i);
    InScript(cfg, c, StartReceived(v), TransfersReceived(cfg, c, v), StopReceived(v), s.log[i].request);
    TransferInFull(cfg, c);
  }

  // ---- Delivery ----

  /** In every reachable state what was sent to client c is what it received and what is in flight to it, in order; each is
      the server's buffer under c's tag, at most one is in flight to c, and nothing is sent to anyone else. */
  lemma Delivery(cfg: Config, run: seq<Label>, c: nat)
    requires cfg.Valid() && After(cfg, run).Some? && c < cfg.N()
    ensures var s := After(cfg, run).value;
            && ParcelsTo(s.server.dispatched, c) == s.clients[c].received + s.mail[c]
            && (forall p | p in s.clients[c].received + s.mail[c] :: p.tag == c && p.data == cfg.data)
            && |s.mail[c]| <= 1
            && (forall i | 0 <= i < |s.server.dispatched| :: s.server.dispatched[i].worker < cfg.N())
            && (Final(s) ==> s.clients[c].received == Repeat(cfg.iters[c], Parcel(c, cfg.data)) && s.mail[c] == [])
  {
    hide TransferRequest, Script, RequestsFrom, ParcelsTo, ActionsAt, Central;
    ReachableShape(cfg, run);
    var s := After(cfg, run).value;
    assert Local(cfg, c, ViewOf(cfg, s, c), Late(s)) && ClientHistory(cfg, s, c) && ServerHistory(cfg, s, c);
    assert forall i | 0 <= i < |s.server.dispatched| :: GoodDispatch(cfg, s.server.dispatched[i]);
  }

  /** When a send completes only after its payload is matched, at most one payload is in flight overall. */
  lemma OneInFlight(cfg: Config, run: seq<Label>, c: nat, d: nat)
    requires cfg.Valid() && !cfg.eager && After(cfg, run).Some? && c < cfg.N() && d < cfg.N()
    requires var s := After(cfg, run).value; s.mail[c] != [] && s.mail[d] != []
    ensures c == d
  {
    hide TransferRequest, Central;
    Reachable(cfg, run);
    var s := After(cfg, run).value;
    assert Local(cfg, c, ViewOf(cfg, s, c), Late(s)) && Local(cfg, d, ViewOf(cfg, s, d), Late(s));
  }

  // ---- Stopping ----

  /** The server is out of its run loop exactly when every STOP was received and the last was answered; then no request is
      queued or still to be sent and no payload is in flight. */
  lemma CleanStop(cfg: Config, run: seq<Label>)
    requires cfg.Valid() && After(cfg, run).Some?
    ensures var s := After(cfg, run).value;
            && (s.server.mode.Stopped? <==> s.phase.Idle? && forall c | 0 <= c < cfg.N() :: StopReceived(ViewOf(cfg, s, c)))
            && (s.server.mode.Stopped? ==>
                  forall c | 0 <= c < cfg.N() :: s.clients[c].phase.Finished? && s.inbox[c] == [] && s.mail[c] == [])
  {
    Reachable(cfg, run);
    var s := After(cfg, run).value;
    if s.server.mode.Stopped? {
      StoppedIsFinal(cfg, s);
    } else if s.phase.Idle? && forall c | 0 <= c < cfg.N() :: StopReceived(ViewOf(cfg, s, c)) {
      forall c | 0 <= c < cfg.N() ensures !s.server.active[c] && Late(s) {
        assert Local(cfg, c, ViewOf(cfg, s, c), Late(s)) && StopReceived(ViewOf(cfg, s, c));
      }
    }
  }

  // ---- Socket discipline ----

  datatype Socket = Ready | Awaiting | Broken

  /** A request socket must strictly alternate send and receive. */
  function SocketAfter(actions: seq<Action>): Socket {
    if actions == [] then Ready
    else
      var before := SocketAfter(actions[..|actions| - 1]);
      match actions[|actions| - 1]
      case SendRequest(_) => if before.Ready? then Awaiting else Broken
      case RecvReply(_) => if before.Awaiting? then Ready else Broken
      case _ => before
  }

  lemma SocketMore(a: seq<Action>, x: Action)
    ensures SocketAfter(a + [x]) ==
            match x
            case SendRequest(_) => (if SocketAfter(a).Ready? then Awaiting else Broken)
            case RecvReply(_) => (if SocketAfter(a).Awaiting? then Ready else Broken)
            case _ => SocketAfter(a)
  {
    assert (a + [x])[..|a|] == a;
  }

  lemma {:induction false} SocketAfterOpening(cfg: Config, c: nat, n: nat)
    requires c < |cfg.addrs|
    ensures SocketAfter(Opening(cfg, c, n)) == Ready
  {
    hide TransferRequest, SocketAfter, Opening, Round;
    RoundsMore(cfg, c, 0);
    if n == 0 {
      SocketOfNothing();
      assert [SendRequest(StartRequest(c)), RecvReply(StartOk)] == [] + [SendRequest(StartRequest(c))] + [RecvReply(StartOk)];
      SocketMore([], SendRequest(StartRequest(c)));
      SocketMore([] + [SendRequest(StartRequest(c))], RecvReply(StartOk));
      SocketMore([SendRequest(StartRequest(c)), RecvReply(StartOk)], LeaveBarrier);
    } else {
      SocketAfterOpening(cfg, c, n - 1);
      RoundsMore(cfg, c, n - 1);
      var a := Opening(cfg, c, n - 1);
      SocketMore(a, SendRequest(TransferRequest(cfg, c)));
      SocketMore(a + Round(cfg, c)[..1], RecvParcel(Payload(cfg, c)));
      SocketMore(a + Round(cfg, c)[..2], RecvReply(IterOk));
    }
  }

  lemma SocketOfNothing()
    ensures SocketAfter([]) == Ready
  {
  }

  /** Every client's socket strictly alternates, so it never has more than one unanswered request; it ends awaiting the
      reply to STOP that nobody reads. */
  lemma ClientDiscipline(cfg: Config, run: seq<Label>, c: nat)
    requires cfg.Valid() && After(cfg, run).Some? && c < cfg.N()
    ensures var k := After(cfg, run).value.clients[c];
            SocketAfter(k.actions) ==
            if k.phase.Fresh? || k.phase.AtBarrier? || k.phase.Looping? then Ready else Awaiting
  {
    hide TransferRequest, SocketAfter, Opening, Round;
    ReachableHistories(cfg, run);
    var s := After(cfg, run).value;
    var n := Done(cfg, c, ViewOf(cfg, s, c));
    assert Local(cfg, c, ViewOf(cfg, s, c), Late(s)) && ClientHistory(cfg, s, c);
    SocketOfNothing();
    SocketMore([], SendRequest(StartRequest(c)));
    SocketMore([SendRequest(StartRequest(c))], RecvReply(StartOk));
    assert [] + [SendRequest(StartRequest(c))] == [SendRequest(StartRequest(c))];
    assert [SendRequest(StartRequest(c))] + [RecvReply(StartOk)] == [SendRequest(StartRequest(c)), RecvReply(StartOk)];
    SocketAfterOpening(cfg, c, n);
    RoundsMore(cfg, c, n);
    SocketMore(Opening(cfg, c, n), SendRequest(TransferRequest(cfg, c)));
    SocketMore(Opening(cfg, c, n) + Round(cfg, c)[..1], RecvParcel(Payload(cfg, c)));
    SocketMore(Opening(cfg, c, n), SendRequest(StopRequest(c)));
  }

  /** The server's socket: one reply per request, to the client whose request was received last, of the matching kind. */
  lemma ServerDiscipline(cfg: Config, run: seq<Label>)
    requires cfg.Valid() && After(cfg, run).Some?
    ensures var s := After(cfg, run).value;
            && |s.server.replies| == |s.log| - (if s.phase.Idle? then 0 else 1)
            && forall i | 0 <= i < |s.server.replies| ::
                 && s.server.replies[i].peer == s.log[i].peer == s.log[i].request.rank
                 && s.server.replies[i].reply == ReplyFor(s.log[i].request)
  {
    ReachableShape(cfg, run);
    var s := After(cfg, run).value;
    forall i | 0 <= i < |s.server.replies| ensures s.log[i].peer == s.log[i].request.rank {
      assert GoodEntry(cfg, s.log[i]);
    }
  }
}

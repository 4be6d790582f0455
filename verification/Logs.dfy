/** Exactly which requests the server can receive in which order. */
module Logs {
  import opened Wrappers
  import opened Bytes
  import opened Messages
  import opened ServerModel
  import opened Protocol
  import opened Invariant
  import opened History
  import opened ServerLog
  import opened Progress
  import opened ProtocolTheorems
  import opened Schedules
  import opened Interleavings

  /** The server is free and every client is where it could stay: nothing was asked that is not answered. */
  predicate Resting(cfg: Config, s: State) {
    && Shaped(cfg, s) && s.phase.Idle?
    && forall c | 0 <= c < cfg.N() ::
         && s.inbox[c] == []
         && (s.clients[c].phase.Fresh? || s.clients[c].phase.AtBarrier? || s.clients[c].phase.Looping?
             || s.clients[c].phase.Finished?)
  }

  predicate OthersRest(cfg: Config, s: State, c: nat) {
    && Shaped(cfg, s)
    && forall d | 0 <= d < cfg.N() && d != c ::
         && s.inbox[d] == []
         && (s.clients[d].phase.Fresh? || s.clients[d].phase.AtBarrier? || s.clients[d].phase.Looping?
             || s.clients[d].phase.Finished?)
  }

  function NextRequestOf(cfg: Config, c: nat, k: ClientState): Request
    requires c < |cfg.addrs|
  {
    if k.phase.Fresh? then StartRequest(c)
    else if k.remaining > 0 then TransferRequest(cfg, c)
    else StopRequest(c)
  }

  predicate CanAsk(s: State, c: nat)
    requires c < |s.clients|
  {
    var phase := s.clients[c].phase;
    phase.Fresh? || phase.Looping? || (phase.AtBarrier? && AllArrived(s.clients))
  }

  predicate Asked(k: ClientState) {
    k.phase.AwaitOk? || k.phase.AwaitPayload? || k.phase.Finished?
  }

  /** Client c sends its next request, and nobody else does anything. */
  lemma Asks(cfg: Config, run: seq<Label>, c: nat) returns (next: seq<Label>)
    requires cfg.Valid() && After(cfg, run).Some? && c < cfg.N()
    requires Resting(cfg, After(cfg, run).value) && CanAsk(After(cfg, run).value, c)
    ensures After(cfg, next).Some?
    ensures var s, s' := After(cfg, run).value, After(cfg, next).value;
            && OthersRest(cfg, s', c) && s'.phase.Idle? && s'.log == s.log && s'.server == s.server
            && s'.inbox[c] == [NextRequestOf(cfg, c, s.clients[c])] && Asked(s'.clients[c])
            && (s'.clients[c].phase.Finished? ==> !s.clients[c].phase.Fresh?)
  {
    hide After, TransferRequest, Local, Central, AllArrived;
    var s := After(cfg, run).value;
    next := ClientGoesOn(cfg, run, c);
    OthersUnmoved(cfg, s, After(cfg, next).value, c);
    if s.clients[c].phase.AtBarrier? {
      var s1 := After(cfg, next).value;
      next := ClientGoesOn(cfg, next, c);
      OthersUnmoved(cfg, s1, After(cfg, next).value, c);
    }
  }

  lemma OthersUnmoved(cfg: Config, s: State, s': State, c: nat)
    requires Shaped(cfg, s) && Shaped(cfg, s') && OthersRest(cfg, s, c)
    requires forall d | 0 <= d < cfg.N() && d != c :: ViewOf(cfg, s', d) == ViewOf(cfg, s, d)
    ensures OthersRest(cfg, s', c)
  {
    forall d | 0 <= d < cfg.N() && d != c ensures s'.inbox[d] == s.inbox[d] && s'.clients[d].phase == s.clients[d].phase {
      assert ViewOf(cfg, s', d) == ViewOf(cfg, s, d);
    }
  }

  /** A START or a STOP is received and answered. */
  lemma Acknowledged(cfg: Config, run: seq<Label>, c: nat) returns (next: seq<Label>)
    requires cfg.Valid() && After(cfg, run).Some? && c < cfg.N()
    requires var s := After(cfg, run).value;
             && OthersRest(cfg, s, c) && ReceiveEnabled(cfg, s, c)
             && (s.clients[c].phase.AwaitOk? || s.clients[c].phase.Finished?)
    ensures After(cfg, next).Some?
    ensures var s, s' := After(cfg, run).value, After(cfg, next).value;
            Resting(cfg, s') && s'.log == s.log + [Envelope(c, s.inbox[c][0])]
  {
    hide After, TransferRequest, Central;
    var s := After(cfg, run).value;
    var run1 := ServerReceivesFrom(cfg, run, c);
    var s1 := After(cfg, run1).value;
    OthersUnmoved(cfg, s, s1, c);
    assert Local(cfg, c, ViewOf(cfg, s1, c), Late(s1));
    next := ServerGoesOn(cfg, run1);
    var s2 := After(cfg, next).value;
    OthersUnmoved(cfg, s1, s2, c);
    assert Local(cfg, c, ViewOf(cfg, s2, c), Late(s2));
    if s.clients[c].phase.AwaitOk? {
      next := ClientGoesOn(cfg, next, c);
      OthersUnmoved(cfg, s2, After(cfg, next).value, c);
      assert ViewOf(cfg, After(cfg, next).value, c).inbox == [];
    }
  }

  /** A TRANSFER is received, its payload sent and matched, and it is answered. */
  lemma Transferred(cfg: Config, run: seq<Label>, c: nat) returns (next: seq<Label>)
    requires cfg.Valid() && After(cfg, run).Some? && c < cfg.N()
    requires var s := After(cfg, run).value;
             OthersRest(cfg, s, c) && ReceiveEnabled(cfg, s, c) && s.clients[c].phase.AwaitPayload?
    ensures After(cfg, next).Some?
    ensures var s, s' := After(cfg, run).value, After(cfg, next).value;
            Resting(cfg, s') && s'.log == s.log + [Envelope(c, s.inbox[c][0])]
  {
    hide After, TransferRequest, Central;
    var s := After(cfg, run).value;
    var run1 := ServerReceivesFrom(cfg, run, c);
    var s1 := After(cfg, run1).value;
    OthersUnmoved(cfg, s, s1, c);
    assert Local(cfg, c, ViewOf(cfg, s1, c), Late(s1));
    var run2 := ServerGoesOn(cfg, run1);
    var s2 := After(cfg, run2).value;
    OthersUnmoved(cfg, s1, s2, c);
    assert Local(cfg, c, ViewOf(cfg, s2, c), Late(s2));
    OwnParcelMatches(cfg, c);
    var run3 := ClientGoesOn(cfg, run2, c);
    OthersUnmoved(cfg, s2, After(cfg, run3).value, c);
    next := Finishes(cfg, run3, c);
  }

  lemma Finishes(cfg: Config, run: seq<Label>, c: nat) returns (next: seq<Label>)
    requires cfg.Valid() && After(cfg, run).Some? && c < cfg.N()
    requires var s := After(cfg, run).value;
             && OthersRest(cfg, s, c) && s.phase.Waiting? && s.phase.peer == c
             && s.clients[c].phase.AwaitReply?
    ensures After(cfg, next).Some?
    ensures Resting(cfg, After(cfg, next).value) && After(cfg, next).value.log == After(cfg, run).value.log
  {
    hide After, TransferRequest, Central;
    var s := After(cfg, run).value;
    Reachable(cfg, run);
    assert Local(cfg, c, ViewOf(cfg, s, c), Late(s));
    var run1 := ServerGoesOn(cfg, run);
    var s1 := After(cfg, run1).value;
    OthersUnmoved(cfg, s, s1, c);
    var run2 := ServerGoesOn(cfg, run1);
    var s2 := After(cfg, run2).value;
    OthersUnmoved(cfg, s1, s2, c);
    assert Local(cfg, c, ViewOf(cfg, s2, c), Late(s2));
    next := ClientGoesOn(cfg, run2, c);
    OthersUnmoved(cfg, s2, After(cfg, next).value, c);
    assert ViewOf(cfg, After(cfg, next).value, c).inbox == [];
  }

  /** One more request of client c in the log, from rest to rest. */
  lemma OneMoreEntry(cfg: Config, run: seq<Label>, c: nat) returns (next: seq<Label>)
    requires cfg.Valid() && After(cfg, run).Some? && c < cfg.N()
    requires Resting(cfg, After(cfg, run).value) && CanAsk(After(cfg, run).value, c)
    ensures After(cfg, next).Some?
    ensures var s, s' := After(cfg, run).value, After(cfg, next).value;
            Resting(cfg, s') && s'.log == s.log + [Envelope(c, NextRequestOf(cfg, c, s.clients[c]))]
  {
    hide After, TransferRequest, NextRequestOf;
    next := Asks(cfg, run, c);
    var s1 := After(cfg, next).value;
    Reachable(cfg, next);
    assert Local(cfg, c, ViewOf(cfg, s1, c), Late(s1));
    NotStopped(cfg, s1, c);
    if s1.clients[c].phase.AwaitPayload? {
      next := Transferred(cfg, next, c);
    } else {
      next := Acknowledged(cfg, next, c);
    }
  }

  lemma NotStopped(cfg: Config, s: State, c: nat)
    requires Inv(cfg, s) && c < cfg.N() && s.inbox[c] != []
    ensures s.server.mode.Starting? || s.server.mode.Serving?
  {
    if s.server.mode.Stopped? {
      StoppedIsFinal(cfg, s);
    }
  }

  // ---- The logs of whole runs ----

  /** One START from each client in any order, and then any interleaving of each client's TRANSFERs followed by its STOP. */
  ghost predicate WholeLog(cfg: Config, log: seq<Envelope>)
    requires |cfg.addrs| == cfg.N()
  {
    && |log| >= cfg.N()
    && (forall i | 0 <= i < |log| :: log[i].peer < cfg.N())
    && forall c | 0 <= c < cfg.N() ::
         && RequestsFrom(log[..cfg.N()], c) == [Request(c, 0, None)]
         && RequestsFrom(log[cfg.N()..], c) == Repeat(cfg.iters[c], TransferRequest(cfg, c)) + [Request(c, 2, None)]
  }

  /** A client's requests in the whole log, and in its first k entries. */
  lemma ProjectionAt(cfg: Config, log: seq<Envelope>, k: nat)
    requires cfg.Valid() && WholeLog(cfg, log) && k < |log|
    ensures var c := log[k].peer;
            var i := |RequestsFrom(log[..k], c)|;
            && i < 2 + cfg.iters[c]
            && log[k].request == (if i == 0 then StartRequest(c) else if i <= cfg.iters[c] then TransferRequest(cfg, c)
                                  else StopRequest(c))
            && (k < cfg.N() ==> i == 0)
    ensures k >= cfg.N() ==> forall d | 0 <= d < cfg.N() :: |RequestsFrom(log[..k], d)| >= 1
  {
    hide RequestsFrom, TransferRequest;
    var c, n := log[k].peer, cfg.N();
    var before, whole := RequestsFrom(log[..k], c), RequestsFrom(log, c);
    assert log == log[..n] + log[n..] == log[..k] + [log[k]] + log[k + 1..];
    RequestsFromSplit(log[..n], log[n..], c);
    RequestsFromSplit(log[..k] + [log[k]], log[k + 1..], c);
    RequestsFromSplit(log[..k], [log[k]], c);
    OneEntry(log[k]);
    assert whole == [StartRequest(c)] + (Repeat(cfg.iters[c], TransferRequest(cfg, c)) + [StopRequest(c)]);
    assert whole == before + [log[k].request] + RequestsFrom(log[k + 1..], c);
    assert whole[|before|] == log[k].request;
    if k < n {
      assert log[..n] == log[..k] + [log[k]] + log[k + 1..n];
      RequestsFromSplit(log[..k] + [log[k]], log[k + 1..n], c);
    } else {
      forall d | 0 <= d < n ensures |RequestsFrom(log[..k], d)| >= 1 {
        assert log[..k] == log[..n] + log[n..k];
        RequestsFromSplit(log[..n], log[n..k], d);
      }
    }
  }

  lemma OneEntry(e: Envelope)
    ensures RequestsFrom([e], e.peer) == [e.request]
  {
    assert RequestsFrom([], e.peer) == [];
    assert [e][..0] == [];
  }

  /** At rest, a client's phase is told by the number of its requests in the log. */
  lemma RestingCounts(cfg: Config, s: State, c: nat)
    requires cfg.Valid() && Inv(cfg, s) && Histories(cfg, s) && Resting(cfg, s) && c < cfg.N()
    ensures var i := |RequestsFrom(s.log, c)|;
            && (s.clients[c].phase.Fresh? <==> i == 0)
            && (s.clients[c].phase.Finished? <==> i == 2 + cfg.iters[c])
            && (1 <= i <= 1 + cfg.iters[c] ==> s.clients[c].remaining == cfg.iters[c] - (i - 1))
            && i <= 2 + cfg.iters[c]
  {
    hide TransferRequest, RequestsFrom, Central, Histories;
    CountsOf(cfg, s, c);
    assert Local(cfg, c, ViewOf(cfg, s, c), Late(s));
  }

  /** With the first k entries received and everyone at rest, the next entry is what its client would ask next. */
  lemma NextFollows(cfg: Config, log: seq<Envelope>, s: State)
    requires cfg.Valid() && WholeLog(cfg, log) && Inv(cfg, s) && Histories(cfg, s) && Resting(cfg, s)
    requires |s.log| < |log| && s.log == log[..|s.log|]
    ensures var e := log[|s.log|];
            e.peer < cfg.N() && CanAsk(s, e.peer) && e == Envelope(e.peer, NextRequestOf(cfg, e.peer, s.clients[e.peer]))
  {
    hide WholeLog, Inv, Histories, RequestsFrom, TransferRequest;
    var k := |s.log|;
    var e := log[k];
    PeerInLog(cfg, log, k);
    ProjectionAt(cfg, log, k);
    RestingCounts(cfg, s, e.peer);
    if k >= cfg.N() {
      forall d | 0 <= d < cfg.N() ensures HasArrived(s.clients[d].phase) {
        RestingCounts(cfg, s, d);
      }
    }
  }

  lemma RestingAtFirst(cfg: Config)
    requires |cfg.addrs| == cfg.N()
    ensures After(cfg, []).Some? && After(cfg, []).value.log == [] && Resting(cfg, After(cfg, []).value)
  {
    NoSteps(cfg);
  }

  lemma {:induction false} PrefixHappens(cfg: Config, log: seq<Envelope>, k: nat) returns (run: seq<Label>)
    requires cfg.Valid() && WholeLog(cfg, log) && k <= |log|
    ensures After(cfg, run).Some?
    ensures After(cfg, run).value.log == log[..k] && Resting(cfg, After(cfg, run).value)
  {
    hide After, WholeLog, Inv, Histories, Resting, CanAsk, NextRequestOf;
    if k == 0 {
      run := [];
      RestingAtFirst(cfg);
    } else {
      run := PrefixHappens(cfg, log, k - 1);
      ReachableHistories(cfg, run);
      NextFollows(cfg, log, After(cfg, run).value);
      run := OneMoreEntry(cfg, run, log[k - 1].peer);
      assert log[..k] == log[..k - 1] + [log[k - 1]];
    }
  }

  lemma PeerInLog(cfg: Config, log: seq<Envelope>, k: nat)
    requires cfg.Valid() && WholeLog(cfg, log) && k < |log|
    ensures log[k].peer < cfg.N()
  {
  }

  /** Every such log happens. */
  lemma EveryLogHappens(cfg: Config, log: seq<Envelope>) returns (run: seq<Label>)
    requires cfg.Valid() && WholeLog(cfg, log)
    ensures After(cfg, run).Some? && After(cfg, run).value.log == log && Final(After(cfg, run).value)
  {
    hide After, Inv, Histories;
    run := PrefixHappens(cfg, log, |log|);
    var s := After(cfg, run).value;
    assert log[..|log|] == log;
    ReachableHistories(cfg, run);
    forall c | 0 <= c < cfg.N() ensures StopReceived(ViewOf(cfg, s, c)) {
      assert log == log[..cfg.N()] + log[cfg.N()..];
      RequestsFromSplit(log[..cfg.N()], log[cfg.N()..], c);
      RestingCounts(cfg, s, c);
    }
    CleanStop(cfg, run);
    StoppedIsFinal(cfg, s);
  }

  ghost predicate EndsWith(cfg: Config, run: seq<Label>, log: seq<Envelope>)
    requires |cfg.addrs| == cfg.N()
  {
    After(cfg, run).Some? && Final(After(cfg, run).value) && After(cfg, run).value.log == log
  }

  /** What the server can receive in a whole run is exactly that: the STARTs in any order, then any interleaving of the
      clients' TRANSFERs and STOPs. */
  lemma LogsExactly(cfg: Config, log: seq<Envelope>)
    requires cfg.Valid()
    ensures (exists run :: EndsWith(cfg, run, log)) <==> WholeLog(cfg, log)
  {
    hide After, Final, Inv, RequestsFrom;
    if WholeLog(cfg, log) {
      var run := EveryLogHappens(cfg, log);
      assert EndsWith(cfg, run, log);
    }
    forall run | EndsWith(cfg, run, log) ensures WholeLog(cfg, log) {
      LogIsWhole(cfg, run);
    }
  }

  lemma LogIsWhole(cfg: Config, run: seq<Label>)
    requires cfg.Valid() && After(cfg, run).Some? && Final(After(cfg, run).value)
    ensures WholeLog(cfg, After(cfg, run).value.log)
  {
    hide After, TransferRequest, RequestsFrom, Inv, Histories;
    WholeTrace(cfg, run);
    ReachableShape(cfg, run);
    var log := After(cfg, run).value.log;
    forall i | 0 <= i < |log| ensures log[i].peer < cfg.N() {
      assert GoodEntry(cfg, log[i]);
    }
    forall c | 0 <= c < cfg.N()
      ensures Script(cfg, c, false, cfg.iters[c], true) ==
              Repeat(cfg.iters[c], TransferRequest(cfg, c)) + [Request(c, 2, None)]
    {
    }
  }
}

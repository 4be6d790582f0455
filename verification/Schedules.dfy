/** Runs that can be made to happen: every run can be finished, some would break without the barrier, and with eager sends
    some have two payloads in flight. */
module Schedules {
  import opened Wrappers
  import opened Messages
  import opened ServerModel
  import opened Protocol
  import opened Invariant
  import opened ServerLog
  import opened Progress
  import opened ProtocolTheorems

  // ---- Extending a run by one step ----

  lemma OneStep(cfg: Config, run: seq<Label>, l: Label)
    requires |cfg.addrs| == cfg.N() && After(cfg, run).Some? && Enabled(cfg, After(cfg, run).value, l)
    ensures After(cfg, run + [l]) == Some(Step(cfg, After(cfg, run).value, l))
  {
    assert (run + [l])[..|run|] == run;
  }

  lemma NoSteps(cfg: Config)
    requires |cfg.addrs| == cfg.N()
    ensures After(cfg, []) == Some(Initial(cfg))
  {
  }

  /** Every run is the beginning of one that ends with the server out of its loop and all clients past run. */
  lemma {:induction false} EveryRunFinishes(cfg: Config, run: seq<Label>) returns (whole: seq<Label>)
    requires cfg.Valid() && After(cfg, run).Some?
    ensures run <= whole && After(cfg, whole).Some? && Final(After(cfg, whole).value)
    decreases Budget(cfg.iters) - |run|
  {
    hide After, Final;
    MaximalRuns(cfg, run);
    if Final(After(cfg, run).value) {
      whole := run;
    } else {
      Reachable(cfg, run);
      var l := NoDeadlock(cfg, After(cfg, run).value);
      OneStep(cfg, run, l);
      whole := EveryRunFinishes(cfg, run + [l]);
    }
  }

  lemma ClientGoesOn(cfg: Config, run: seq<Label>, c: nat) returns (next: seq<Label>)
    requires cfg.Valid() && After(cfg, run).Some? && c < cfg.N() && ClientEnabled(cfg, After(cfg, run).value, c)
    ensures After(cfg, next).Some?
    ensures var s, s' := After(cfg, run).value, After(cfg, next).value;
            && Inv(cfg, s) && Inv(cfg, s') && s'.server == s.server && s'.phase == s.phase && s'.log == s.log
            && ViewOf(cfg, s', c) == NextView(cfg, c, ViewOf(cfg, s, c))
            && forall d | 0 <= d < cfg.N() && d != c :: ViewOf(cfg, s', d) == ViewOf(cfg, s, d)
  {
    hide After, Inv, StepClient, ClientEnabled, NextView;
    var s := After(cfg, run).value;
    next := run + [ClientMoves(c)];
    OneStep(cfg, run, ClientMoves(c));
    Reachable(cfg, run);
    Reachable(cfg, next);
    ClientView(cfg, s, c);
    ClientKeepsServer(cfg, s, c);
    forall d | 0 <= d < cfg.N() && d != c ensures ViewOf(cfg, StepClient(cfg, s, c), d) == ViewOf(cfg, s, d) {
      ClientFrame(cfg, s, c, d);
    }
  }

  lemma ServerReceivesFrom(cfg: Config, run: seq<Label>, c: nat) returns (next: seq<Label>)
    requires cfg.Valid() && After(cfg, run).Some? && c < cfg.N() && ReceiveEnabled(cfg, After(cfg, run).value, c)
    ensures After(cfg, next).Some?
    ensures var s, s' := After(cfg, run).value, After(cfg, next).value;
            && Inv(cfg, s) && Inv(cfg, s') && s'.server.mode == s.server.mode && s'.clients == s.clients
            && !s'.phase.Idle? && s'.phase.peer == c && s'.log == s.log + [Envelope(c, s.inbox[c][0])]
            && (s'.phase.Sending? <==> s.clients[c].phase.AwaitPayload?) && !s'.phase.Waiting?
            && forall d | 0 <= d < cfg.N() && d != c :: ViewOf(cfg, s', d) == ViewOf(cfg, s, d)
  {
    hide After, Inv, Handle;
    var s := After(cfg, run).value;
    next := run + [ServerReceives(c)];
    OneStep(cfg, run, ServerReceives(c));
    Reachable(cfg, run);
    Reachable(cfg, next);
    RequestsAreHandled(cfg, s, c);
    ReceiveKeepsLocal(cfg, s, c);
  }

  lemma ServerGoesOn(cfg: Config, run: seq<Label>) returns (next: seq<Label>)
    requires cfg.Valid() && After(cfg, run).Some? && ServerEnabled(cfg, After(cfg, run).value)
    ensures After(cfg, next).Some?
    ensures var s, s' := After(cfg, run).value, After(cfg, next).value;
            && Inv(cfg, s) && Inv(cfg, s') && s'.clients == s.clients && s'.inbox == s.inbox && s'.log == s.log
            && s'.server.active == s.server.active
            && s'.phase == (match s.phase
                            case Sending(peer, worker, parcel) => Waiting(peer, worker, parcel)
                            case Waiting(peer, _, _) => Replying(peer, IterOk)
                            case _ => Idle)
            && forall d | 0 <= d < cfg.N() && d != s.phase.peer :: ViewOf(cfg, s', d) == ViewOf(cfg, s, d)
  {
    hide After, Inv, AllActive, NoneActive;
    var s := After(cfg, run).value;
    next := run + [ServerMoves];
    OneStep(cfg, run, ServerMoves);
    Reachable(cfg, run);
    Reachable(cfg, next);
    ServerKeepsLocal(cfg, s);
  }

  // ---- All clients start ----

  /** The first k clients are at the barrier and the others have done nothing. */
  predicate Lined(cfg: Config, s: State, k: nat) {
    && Shaped(cfg, s) && s.phase.Idle?
    && forall c | 0 <= c < cfg.N() :: s.clients[c].phase == if c < k then AtBarrier else Fresh
  }

  lemma LinedMode(cfg: Config, s: State, k: nat)
    requires cfg.Valid() && Inv(cfg, s) && Lined(cfg, s, k) && k <= cfg.N()
    ensures s.server.mode == if k < cfg.N() then Starting else Serving
  {
    if k < cfg.N() {
      assert Local(cfg, k, ViewOf(cfg, s, k), Late(s));
    } else {
      forall c | 0 <= c < cfg.N() ensures s.server.active[c] {
        assert Local(cfg, c, ViewOf(cfg, s, c), Late(s));
      }
      assert s.server.active[0];
    }
  }

  lemma OneMoreStarts(cfg: Config, run: seq<Label>, k: nat) returns (next: seq<Label>)
    requires cfg.Valid() && After(cfg, run).Some? && k < cfg.N() && Lined(cfg, After(cfg, run).value, k)
    ensures After(cfg, next).Some? && Lined(cfg, After(cfg, next).value, k + 1)
  {
    hide After, Central;
    var s := After(cfg, run).value;
    var run1 := ClientGoesOn(cfg, run, k);
    LinedMode(cfg, s, k);
    var s1 := After(cfg, run1).value;
    assert Local(cfg, k, ViewOf(cfg, s, k), false);
    var run2 := ServerReceivesFrom(cfg, run1, k);
    var s2 := After(cfg, run2).value;
    assert Local(cfg, k, ViewOf(cfg, s2, k), Late(s2));
    var run3 := ServerGoesOn(cfg, run2);
    var s3 := After(cfg, run3).value;
    assert Local(cfg, k, ViewOf(cfg, s3, k), Late(s3));
    next := ClientGoesOn(cfg, run3, k);
    var s4 := After(cfg, next).value;
    forall c | 0 <= c < cfg.N() ensures s4.clients[c].phase == if c < k + 1 then AtBarrier else Fresh {
      if c != k {
        assert ViewOf(cfg, s4, c).phase == ViewOf(cfg, s1, c).phase == ViewOf(cfg, s, c).phase;
      }
    }
  }

  lemma {:induction false} AllStart(cfg: Config, k: nat) returns (run: seq<Label>)
    requires cfg.Valid() && k <= cfg.N()
    ensures After(cfg, run).Some? && Lined(cfg, After(cfg, run).value, k)
  {
    if k == 0 {
      run := [];
      NoSteps(cfg);
    } else {
      run := AllStart(cfg, k - 1);
      run := OneMoreStarts(cfg, run, k - 1);
    }
  }

  // ---- The barrier ----

  lemma SoleClientIsLast(cfg: Config, s: State)
    requires Inv(cfg, s) && cfg.N() == 1
    ensures !CanLeaveEarly(s, 0)
  {
    assert Local(cfg, 0, ViewOf(cfg, s, 0), Late(s));
  }

  lemma EarlyWhenLined(cfg: Config, s: State)
    requires cfg.Valid() && Inv(cfg, s) && Lined(cfg, s, 1) && cfg.N() >= 2
    ensures CanLeaveEarly(s, 0)
  {
    LinedMode(cfg, s, 1);
  }

  ghost predicate CanLeaveEarlyAfter(cfg: Config, run: seq<Label>, c: nat)
    requires |cfg.addrs| == cfg.N() && c < cfg.N()
  {
    After(cfg, run).Some? && CanLeaveEarly(After(cfg, run).value, c)
  }

  /** Some run gets there exactly when there are two clients or more. */
  lemma EarlyDepartureIffTwo(cfg: Config)
    requires cfg.Valid()
    ensures (exists run, c: nat | c < cfg.N() :: CanLeaveEarlyAfter(cfg, run, c)) <==> cfg.N() >= 2
  {
    hide After, CanLeaveEarly, Inv;
    if cfg.N() >= 2 {
      var run := AllStart(cfg, 1);
      Reachable(cfg, run);
      EarlyWhenLined(cfg, After(cfg, run).value);
      assert CanLeaveEarlyAfter(cfg, run, 0);
    } else {
      forall run | After(cfg, run).Some? ensures !CanLeaveEarlyAfter(cfg, run, 0) {
        Reachable(cfg, run);
        SoleClientIsLast(cfg, After(cfg, run).value);
      }
    }
  }

  // ---- One client's payload is sent and stays unmatched ----

  predicate Serves(s: State) {
    s.server.mode.Serving? && s.phase.Idle?
  }

  /** A client at the barrier, or one that already waits for its payload. */
  lemma TransferAsked(cfg: Config, run: seq<Label>, c: nat) returns (next: seq<Label>)
    requires cfg.Valid() && After(cfg, run).Some? && c < cfg.N() && cfg.iters[c] > 0
    requires var s := After(cfg, run).value; Serves(s) && s.clients[c].phase.AtBarrier? && AllArrived(s.clients)
    ensures After(cfg, next).Some?
    ensures var s, s' := After(cfg, run).value, After(cfg, next).value;
            && Serves(s') && s'.clients[c].phase.AwaitPayload? && s'.inbox[c] != []
            && forall d | 0 <= d < cfg.N() && d != c :: ViewOf(cfg, s', d) == ViewOf(cfg, s, d)
  {
    hide After, Central, TransferRequest;
    var run1 := ClientGoesOn(cfg, run, c);
    assert Local(cfg, c, ViewOf(cfg, After(cfg, run).value, c), true);
    next := ClientGoesOn(cfg, run1, c);
  }

  lemma PayloadSent(cfg: Config, run: seq<Label>, c: nat) returns (next: seq<Label>)
    requires cfg.Valid() && cfg.eager && After(cfg, run).Some? && c < cfg.N()
    requires var s := After(cfg, run).value; Serves(s) && s.clients[c].phase.AwaitPayload? && s.inbox[c] != []
    ensures After(cfg, next).Some?
    ensures var s, s' := After(cfg, run).value, After(cfg, next).value;
            && Serves(s') && s'.clients == s.clients && s'.mail[c] != []
            && forall d | 0 <= d < cfg.N() && d != c :: ViewOf(cfg, s', d) == ViewOf(cfg, s, d)
  {
    hide After, TransferRequest, AllActive, NoneActive;
    var run1 := ServerReceivesFrom(cfg, run, c);
    var s1 := After(cfg, run1).value;
    assert Local(cfg, c, ViewOf(cfg, s1, c), true);
    var run2 := ServerGoesOn(cfg, run1);
    var run3 := ServerGoesOn(cfg, run2);
    next := ServerGoesOn(cfg, run3);
    var s' := After(cfg, next).value;
    StaysServing(cfg, s', c);
  }

  lemma StaysServing(cfg: Config, s: State, c: nat)
    requires cfg.Valid() && Inv(cfg, s) && s.phase.Idle? && c < cfg.N() && s.clients[c].phase.AwaitPayload?
    ensures Serves(s)
    ensures s.inbox[c] == [] ==> s.mail[c] != []
  {
    assert Local(cfg, c, ViewOf(cfg, s, c), Late(s)) && s.server.active[c];
  }

  /** From all clients at the barrier or waiting, client c's payload is put in flight and nobody else's view changes. */
  lemma PayloadPutInFlight(cfg: Config, run: seq<Label>, c: nat) returns (next: seq<Label>)
    requires cfg.Valid() && cfg.eager && After(cfg, run).Some? && c < cfg.N() && cfg.iters[c] > 0
    requires var s := After(cfg, run).value; Serves(s) && s.clients[c].phase.AtBarrier? && AllArrived(s.clients)
    ensures After(cfg, next).Some?
    ensures var s, s' := After(cfg, run).value, After(cfg, next).value;
            && Serves(s') && s'.mail[c] != [] && AllArrived(s'.clients)
            && forall d | 0 <= d < cfg.N() && d != c :: ViewOf(cfg, s', d) == ViewOf(cfg, s, d)
  {
    hide After;
    var asked := TransferAsked(cfg, run, c);
    next := PayloadSent(cfg, asked, c);
    var s, s' := After(cfg, run).value, After(cfg, next).value;
    forall d | 0 <= d < cfg.N() ensures HasArrived(s'.clients[d].phase) {
      if d != c {
        assert ViewOf(cfg, s', d).phase == ViewOf(cfg, s, d).phase;
      }
    }
  }

  // ---- The bound ----

  ghost predicate TwoInFlight(cfg: Config, run: seq<Label>, c: nat, d: nat)
    requires |cfg.addrs| == cfg.N()
  {
    && c < cfg.N() && d < cfg.N() && c != d && After(cfg, run).Some?
    && After(cfg, run).value.mail[c] != [] && After(cfg, run).value.mail[d] != []
  }

  predicate AtMostOneTransfers(iters: seq<nat>) {
    forall c, d | 0 <= c < |iters| && 0 <= d < |iters| && c != d :: iters[c] == 0 || iters[d] == 0
  }

  lemma TwoPutInFlight(cfg: Config, c: nat, d: nat) returns (run: seq<Label>)
    requires cfg.Valid() && cfg.eager && c < cfg.N() && d < cfg.N() && c != d && cfg.iters[c] > 0 && cfg.iters[d] > 0
    ensures TwoInFlight(cfg, run, c, d)
  {
    hide After;
    run := AllStart(cfg, cfg.N());
    Reachable(cfg, run);
    LinedMode(cfg, After(cfg, run).value, cfg.N());
    var run1 := PayloadPutInFlight(cfg, run, c);
    assert ViewOf(cfg, After(cfg, run1).value, d).phase == ViewOf(cfg, After(cfg, run).value, d).phase;
    var run2 := PayloadPutInFlight(cfg, run1, d);
    assert ViewOf(cfg, After(cfg, run2).value, c).mail == ViewOf(cfg, After(cfg, run1).value, c).mail;
    run := run2;
  }

  lemma InFlightTransfers(cfg: Config, s: State, c: nat)
    requires Inv(cfg, s) && c < cfg.N() && s.mail[c] != []
    ensures cfg.iters[c] > 0
  {
    assert Local(cfg, c, ViewOf(cfg, s, c), Late(s));
  }

  /** At most one payload is ever in flight overall, in all runs, exactly when sends complete only once matched or at most
      one client has transfers to make. */
  lemma OneInFlightIff(cfg: Config)
    requires cfg.Valid()
    ensures (forall run, c, d :: !TwoInFlight(cfg, run, c, d)) <==> !cfg.eager || AtMostOneTransfers(cfg.iters)
  {
    hide After, Inv;
    if cfg.eager && !AtMostOneTransfers(cfg.iters) {
      var c, d :| 0 <= c < cfg.N() && 0 <= d < cfg.N() && c != d && cfg.iters[c] != 0 && cfg.iters[d] != 0;
      var run := TwoPutInFlight(cfg, c, d);
    } else {
      forall run, c: nat, d: nat | TwoInFlight(cfg, run, c, d) ensures false {
        if cfg.eager {
          Reachable(cfg, run);
          InFlightTransfers(cfg, After(cfg, run).value, c);
          InFlightTransfers(cfg, After(cfg, run).value, d);
        } else {
          OneInFlight(cfg, run, c, d);
        }
      }
    }
  }
}

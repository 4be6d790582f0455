/** The two programs as they are run, and the runs of the whole system they are part of. */
module Processes {
  import opened Wrappers
  import opened Bytes
  import opened Base64Lengths
  import opened Messages
  import opened ServerModel
  import opened Protocol
  import opened Invariant
  import opened History
  import opened ServerLog
  import opened Progress
  import opened ClientModel
  import opened Backend
  import opened ServerProgram
  import opened ClientProgram

  /** The server in the middle of any run is not on its way to a throw. */
  lemma CompletedRuns(cfg: Config, run: seq<Label>)
    requires cfg.Valid() && After(cfg, run).Some?
    ensures !Completed(cfg, After(cfg, run).value).mode.Thrown?
  {
    Reachable(cfg, run);
    hide AllActive, NoneActive, Local;
  }

  /** Before the last request the server is in one of its loops, at the end in none that threw. */
  lemma LoopsAlongLog(cfg: Config, run: seq<Label>, k: nat)
    requires cfg.Valid() && After(cfg, run).Some? && k <= |After(cfg, run).value.log|
    ensures var s := After(cfg, run).value;
            var mode := Replay(cfg, InitialServer(cfg.N()), s.log[..k]).mode;
            && !mode.Thrown?
            && (k < |s.log| ==> mode == if k < cfg.N() then Starting else Serving)
            && (k == |s.log| ==> mode == Completed(cfg, s).mode)
  {
    hide Replay, Completed;
    var s := After(cfg, run).value;
    if k < |s.log| {
      LoopLengths(cfg, run, k);
    } else {
      assert s.log[..k] == s.log;
      LogReplays(cfg, run);
      CompletedRuns(cfg, run);
    }
  }

  /** The start loop, if it ends, ends with the N-th request. */
  lemma StartTakes(cfg: Config, run: seq<Label>, k: nat)
    requires cfg.Valid() && After(cfg, run).Some? && k <= |After(cfg, run).value.log|
    requires Completed(cfg, After(cfg, run).value).mode.Stopped?
    requires var log := After(cfg, run).value.log;
             && StaysIn(cfg, InitialServer(cfg.N()), log[..k], Starting)
             && Replay(cfg, InitialServer(cfg.N()), log[..k]).mode == Serving
    ensures k == cfg.N()
  {
    hide Replay, Completed;
    LoopsAlongLog(cfg, run, k);
    if cfg.N() < k {
      assert After(cfg, run).value.log[..k][..cfg.N()] == After(cfg, run).value.log[..cfg.N()];
      LoopsAlongLog(cfg, run, cfg.N());
    }
  }

  /** start and then run, on the requests that the server received in a run of the whole system: the object ends in the
      state that the system's server has, or has once its iteration in progress is over; it never throws; and when the
      run is over, start took exactly N of the requests. */
  method ServerProcess(ghost cfg: Config, ghost run: seq<Label>, server: Server, random: seq<byte>)
    returns (outcome: ServerOutcome, ghost started: nat)
    requires cfg.Valid() && After(cfg, run).Some?
    requires server.Valid() && server.Vars(Starting) == InitialServer(cfg.N())
    requires server.socket.incoming == After(cfg, run).value.log
    requires server.backend.network == cfg.network && server.dataSize == |random| && random == cfg.data
    modifies server`allActive, server`allUnactive, server`dataBuf, server.active, server.socket, server.backend
    modifies server.backend.journal
    ensures server.Valid() && server.socket.incoming == []
    ensures server.backend.journal.actions == AllActions(cfg, After(cfg, run).value.log)
    ensures var end := Completed(cfg, After(cfg, run).value);
            && server.Vars(end.mode) == end
            && outcome == (if end.mode.Stopped? then Ended else Blocked(end.mode))
            && (end.mode.Stopped? ==>
                  && started == cfg.N() && server.backend.borrowed == old(server.backend.borrowed)
                  && server.backend.returned == old(server.backend.returned) + [cfg.data])
  {
    hide Completed, Replay, After, Respond, Handle, AllActions;
    ghost var s := After(cfg, run).value;
    ServerOrder(cfg, run);
    ghost var first := server.Vars(Starting);
    outcome := server.Start(cfg);
    ghost var log1 := Server.Consumed(s.log, server.socket.incoming);
    started := |log1|;
    assert log1 == s.log[..started];
    LoopsAlongLog(cfg, run, started);
    LoopsAlongLog(cfg, run, |s.log|);
    assert s.log[..|s.log|] == s.log;
    LogReplays(cfg, run);
    if outcome != Ended {
      return;
    }
    if Completed(cfg, s).mode.Stopped? {
      StartTakes(cfg, run, started);
    }
    ghost var rest := server.socket.incoming;
    outcome := server.Run(cfg, random);
    ghost var log2 := Server.Consumed(rest, server.socket.incoming);
    ghost var taken := |s.log| - |server.socket.incoming|;
    assert s.log[..taken] == log1 + log2;
    ReplaySplit(cfg, first, log1, log2);
    LoopsAlongLog(cfg, run, taken);
  }

  lemma ScriptLength(cfg: Config, c: nat, n: nat)
    requires c < |cfg.addrs|
    ensures |ActionsAt(cfg, c, Finished, n)| == 3 + (3 * n + 1)
  {
    RoundsLength(cfg, c, n);
  }

  lemma FinishedState(cfg: Config, s: State, c: nat)
    requires cfg.Valid() && Inv(cfg, s) && Final(s) && c < cfg.N() && ClientHistory(cfg, s, c)
    ensures s.clients[c].phase.Finished? && s.outbox[c] == [DisconnectOk] && s.mail[c] == []
    ensures s.clients[c].actions == ActionsAt(cfg, c, Finished, cfg.iters[c])
  {
    hide TransferRequest, ActionsAt;
    StoppedIsFinal(cfg, s);
    assert Local(cfg, c, ViewOf(cfg, s, c), true);
  }

  /** A client at the end of a run: its actions are its whole script, and all that is left is the reply to its STOP. */
  lemma FinishedClient(cfg: Config, run: seq<Label>, c: nat)
    requires cfg.Valid() && After(cfg, run).Some? && Final(After(cfg, run).value) && c < cfg.N()
    ensures var s := After(cfg, run).value;
            && s.clients[c].phase.Finished? && s.outbox[c] == [DisconnectOk] && s.mail[c] == []
            && s.clients[c].actions == ActionsAt(cfg, c, Finished, cfg.iters[c])
            && |s.clients[c].actions| == 3 + (3 * cfg.iters[c] + 1)
  {
    hide After, Final, Inv, ClientHistory, ServerHistory, ActionsAt;
    ReachableHistories(cfg, run);
    FinishedState(cfg, After(cfg, run).value, c);
    ScriptLength(cfg, c, cfg.iters[c]);
  }

  /** The object has done nothing yet, and everything that was sent to its client in the run will reach it. */
  ghost predicate Fed(cfg: Config, run: seq<Label>, client: Client)
    reads client.socket, client.backend, client.backend.journal
  {
    && |cfg.addrs| == cfg.N() && client.rank < cfg.N() && After(cfg, run).Some?
    && client.backend.journal.actions == []
    && client.socket.incoming == RepliesTo(After(cfg, run).value.server.replies, client.rank)
    && client.backend.mail == ParcelsTo(After(cfg, run).value.server.dispatched, client.rank)
  }

  /** start and then run of client c, on the replies and parcels that were sent to it in a whole run of the system: both
      methods end, nothing is thrown, and the object has done what client c did in the run. */
  method ClientProcess(ghost cfg: Config, ghost run: seq<Label>, client: Client) returns (outcome: ClientOutcome)
    requires cfg.Valid() && After(cfg, run).Some? && Final(After(cfg, run).value)
    requires client.Valid() && client.Plays(cfg)
    requires Fed(cfg, run, client)
    modifies client.socket, client.backend, client.backend.journal
    ensures outcome == Ended
    ensures client.Valid() && client.backend.borrowed == old(client.backend.borrowed)
    ensures client.backend.journal.actions == ActionsAt(cfg, client.rank, Finished, client.numIters)
    ensures client.backend.returned == Repeat(client.numIters, cfg.data)
    ensures client.socket.sent == Script(cfg, client.rank, true, client.numIters, true)
    ensures client.socket.incoming == [DisconnectOk] && client.backend.mail == []
  {
    hide Settle, After, ActionsAt, TransferRequest, Unstalled, Requests, Payloads, Script;
    ghost var v := client.Vars(Fresh, client.numIters);
    ghost var n := 3 * client.numIters + 1;
    FinishedClient(cfg, run, client.rank);
    ClientReplays(cfg, run, client.rank);
    SettleMore(cfg, client.rank, v, 3, n);
    outcome := client.Start(cfg);
    if outcome != Ended {
      StuckStays(cfg, client.rank, Settle(cfg, client.rank, v, 3), n);
      assert false;
    }
    outcome := client.Run(cfg);
    RequestsOfScript(cfg, client.rank, client.numIters);
    PayloadsOfScript(cfg, client.rank, client.numIters);
  }
}

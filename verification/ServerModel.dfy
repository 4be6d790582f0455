/** The server's handling of one request, as a function. */
module ServerModel {
  import opened Wrappers
  import opened Bytes
  import opened Base64Lengths
  import opened Messages
  import Handoff

  /** Every throw in the server's start and run loops; OverRead is the read past the end of a too short address. */
  datatype Fault =
    | InvalidStart
    | NoSuchRank
    | ClosedConnection
    | MissingField
    | OverRead
    | BadAddress
    | NoEndpoint
    | InvalidType

  datatype Mode = Starting | Serving | Stopped | Thrown(fault: Fault)

  /** The server's fields, where it is in its two loops, what it has sent on both channels, and all it has done,
      in order. */
  datatype ServerVars = ServerVars(
    mode: Mode,
    active: seq<bool>,
    allActive: bool,
    allUnactive: bool,
    replies: seq<Routed>,
    dispatched: seq<Dispatch>,
    actions: seq<Action>)

  predicate AllActive(active: seq<bool>) {
    forall i | 0 <= i < |active| :: active[i]
  }

  predicate NoneActive(active: seq<bool>) {
    forall i | 0 <= i < |active| :: !active[i]
  }

  function InitialServer(n: nat): ServerVars {
    ServerVars(Starting, Repeat(n, false), false, true, [], [], [])
  }

  /** What a request leads to: a table update and an immediate reply, a payload to send first, or a throw. */
  datatype Work =
    | Acknowledge(active: seq<bool>, reply: Reply)
    | Send(worker: nat, parcel: Parcel)
    | Throw(fault: Fault)

  predicate IsRank(active: seq<bool>, rank: int) {
    0 <= rank < |active|
  }

  function HandleStart(active: seq<bool>, r: Request): Work {
    if r.msgType != 0 then Throw(InvalidStart)
    else if !IsRank(active, r.rank) then Throw(NoSuchRank)
    else Acknowledge(active[r.rank := true], StartOk)
  }

  function HandleTransfer(cfg: Config, t: TransferBody): (w: Work)
    ensures w.Send? || w.Throw?
  {
    if t.addrSize > |t.addr| || t.addrSize > OBJECT_MAX then Throw(OverRead)
    else
      var buffer := Handoff.ServerBuffer(t.addr, t.addrSize);
      if buffer.Failure? then Throw(BadAddress)
      else if buffer.value !in cfg.network then Throw(NoEndpoint)
      else Send(cfg.network[buffer.value], Parcel(t.tag, cfg.data))
  }

  function HandleRun(cfg: Config, active: seq<bool>, r: Request): Work {
    if !IsRank(active, r.rank) then Throw(NoSuchRank)
    else if !active[r.rank] then Throw(ClosedConnection)
    else if r.msgType == 1 then
      if r.body.None? then Throw(MissingField) else HandleTransfer(cfg, r.body.value)
    else if r.msgType == 2 then Acknowledge(active[r.rank := false], DisconnectOk)
    else Throw(InvalidType)
  }

  function Handle(cfg: Config, v: ServerVars, r: Request): (w: Work)
    ensures w.Acknowledge? ==> |w.active| == |v.active|
  {
    if v.mode.Starting? then HandleStart(v.active, r) else HandleRun(cfg, v.active, r)
  }

  /** check_active_connections. */
  function Check(v: ServerVars): ServerVars {
    v.(allActive := AllActive(v.active), allUnactive := NoneActive(v.active))
  }

  /** The two loop conditions. */
  function LoopTest(v: ServerVars): ServerVars {
    match v.mode
    case Starting => if v.allActive then v.(mode := Serving) else v
    case Serving => if v.allUnactive then v.(mode := Stopped) else v
    case _ => v
  }

  function Hear(v: ServerVars, e: Envelope): ServerVars {
    v.(actions := v.actions + [RecvRequest(e)])
  }

  /** Connect and send. */
  function Transmit(v: ServerVars, worker: nat, parcel: Parcel): ServerVars {
    var d := Dispatch(worker, parcel);
    v.(dispatched := v.dispatched + [d], actions := v.actions + [OpenEndpoint(worker), SendParcel(d)])
  }

  /** Wait for the send to complete, close the endpoint and free the address. */
  function HangUp(v: ServerVars): ServerVars {
    v.(actions := v.actions + [AwaitSend, CloseEndpoint, ReleaseAddress])
  }

  function Answer(v: ServerVars, peer: nat, reply: Reply): ServerVars {
    v.(replies := v.replies + [Routed(peer, reply)], actions := v.actions + [SendReply(Routed(peer, reply))])
  }

  /** Sending the reply, the check and the loop condition. */
  function Finish(v: ServerVars, peer: nat, reply: Reply): ServerVars {
    LoopTest(Check(Answer(v, peer, reply)))
  }

  /** Receiving a request, acting on it and replying, before the check. */
  function Respond(cfg: Config, v: ServerVars, e: Envelope): (r: ServerVars)
    requires v.mode.Starting? || v.mode.Serving?
    ensures r.mode.Thrown? || r.mode == v.mode
  {
    match Handle(cfg, v, e.request)
    case Throw(fault) => Hear(v, e).(mode := Thrown(fault))
    case Acknowledge(active, reply) => Answer(Hear(v, e).(active := active), e.peer, reply)
    case Send(worker, parcel) => Answer(HangUp(Transmit(Hear(v, e), worker, parcel)), e.peer, IterOk)
  }

  /** One iteration of whichever loop the server is in. */
  function Serve(cfg: Config, v: ServerVars, e: Envelope): ServerVars {
    if v.mode.Stopped? || v.mode.Thrown? then v
    else
      var r := Respond(cfg, v, e);
      if r.mode.Thrown? then r else LoopTest(Check(r))
  }

  /** The server after the requests of log, in order. */
  function Replay(cfg: Config, v: ServerVars, log: seq<Envelope>): ServerVars {
    if log == [] then v else Serve(cfg, Replay(cfg, v, log[..|log| - 1]), log[|log| - 1])
  }

  /** The loop of the given mode is not left before the last request of log. */
  ghost predicate StaysIn(cfg: Config, v: ServerVars, log: seq<Envelope>, mode: Mode) {
    forall k | 0 <= k < |log| :: Replay(cfg, v, log[..k]).mode == mode
  }

  lemma StaysInMore(cfg: Config, v: ServerVars, log: seq<Envelope>, e: Envelope, mode: Mode)
    requires StaysIn(cfg, v, log, mode) && Replay(cfg, v, log).mode == mode
    ensures StaysIn(cfg, v, log + [e], mode)
  {
    forall k | 0 <= k < |log| + 1 ensures Replay(cfg, v, (log + [e])[..k]).mode == mode {
      assert (log + [e])[..k] == log[..k];
      assert log[..|log|] == log;
    }
  }

  lemma {:induction false} ReplaySplit(cfg: Config, v: ServerVars, a: seq<Envelope>, b: seq<Envelope>)
    ensures Replay(cfg, v, a + b) == Replay(cfg, Replay(cfg, v, a), b)
  {
    if b == [] {
      assert a + b == a;
    } else {
      ReplaySplit(cfg, v, a, b[..|b| - 1]);
      assert (a + b)[..|a + b| - 1] == a + b[..|b| - 1];
    }
  }
}

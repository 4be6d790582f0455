/** The server as a class: a table of booleans updated in place, two flags and two do-while loops. */
module ServerProgram {
  import opened Wrappers
  import opened Bytes
  import opened Base64Lengths
  import opened Messages
  import opened ServerModel
  import opened Backend
  import Base64
  import Base64InPlace
  import Handoff

  type ServerOutcome = Outcome<Mode, Fault>

  /** The reply socket: the requests still to come, the peer of the last one received, and the replies sent. */
  class ReplySocket {
    const journal: Journal
    var incoming: seq<Envelope>
    var peer: nat
    var replies: seq<Routed>

    constructor (incoming: seq<Envelope>, journal: Journal)
      ensures this.incoming == incoming && replies == [] && this.journal == journal
    {
      this.incoming, peer, replies, this.journal := incoming, 0, [], journal;
    }

    method Recv() returns (r: Option<Request>)
      modifies this`incoming, this`peer, journal
      ensures old(incoming) == [] ==>
                r.None? && incoming == [] && peer == old(peer) && journal.actions == old(journal.actions)
      ensures old(incoming) != [] ==>
                && r == Some(old(incoming)[0].request) && peer == old(incoming)[0].peer && incoming == old(incoming)[1..]
                && journal.actions == old(journal.actions) + [RecvRequest(old(incoming)[0])]
    {
      if incoming == [] {
        return None;
      }
      r, peer := Some(incoming[0].request), incoming[0].peer;
      journal.actions := journal.actions + [RecvRequest(incoming[0])];
      incoming := incoming[1..];
    }

    method Send(reply: Reply)
      modifies this`replies, journal
      ensures replies == old(replies) + [Routed(peer, reply)]
      ensures journal.actions == old(journal.actions) + [SendReply(Routed(peer, reply))]
    {
      replies := replies + [Routed(peer, reply)];
      journal.actions := journal.actions + [SendReply(Routed(peer, reply))];
    }
  }

  class Server {
    const active: array<bool>
    const socket: ReplySocket
    const backend: TagBackend
    var allActive: bool
    var allUnactive: bool
    var dataBuf: array?<byte>
    const dataSize: nat

    /** The table and flags, with what was sent and all that was done, as the value that the server model works on. */
    ghost function Vars(mode: Mode): ServerVars
      reads this, active, socket, backend, backend.journal
    {
      ServerVars(mode, active[..], allActive, allUnactive, socket.replies, backend.sent, backend.journal.actions)
    }

    /** Between iterations the backend is disconnected, and for each payload sent one address was handed over and one
        endpoint created: each of these was released or closed, exactly once. */
    ghost predicate Valid()
      reads this, active, socket, backend
    {
      && active.Length > 0 && socket.journal == backend.journal
      && backend.mode == SEND
      && backend.dataSize == dataSize
      && backend.Disconnected()
      && |backend.handedOver| == |backend.sent| == backend.created
    }

    /** The run's random data is in the buffer, which is not yet returned. */
    ghost predicate Filled(cfg: Config)
      reads this, dataBuf, backend
    {
      && dataBuf in backend.borrowed
      && dataBuf != null && dataBuf.Length == dataSize && dataBuf[..] == cfg.data
      && cfg.network == backend.network
      && (dataBuf as object) != active
    }

    constructor (n: nat, dataSize: nat, socket: ReplySocket, backend: TagBackend)
      requires n > 0 && backend.mode == SEND && backend.dataSize == dataSize && backend.Disconnected()
      requires socket.replies == [] && backend.sent == [] && backend.handedOver == [] && backend.created == 0
      requires socket.journal == backend.journal && backend.journal.actions == []
      ensures Valid() && this.socket == socket && this.backend == backend && this.dataSize == dataSize
      ensures fresh(active) && Vars(Starting) == InitialServer(n)
      ensures active.Length == n && !allActive && allUnactive && forall i | 0 <= i < n :: !active[i]
    {
      this.active := new bool[n](_ => false);
      this.allActive, this.allUnactive := false, true;
      this.socket, this.backend, this.dataSize := socket, backend, dataSize;
      this.dataBuf := null;
    }

    /** The constructor's own check: zero expected connections is refused. */
    static method Create(n: nat, dataSize: nat, socket: ReplySocket, backend: TagBackend) returns (r: Option<Server>)
      requires backend.mode == SEND && backend.dataSize == dataSize && backend.Disconnected()
      requires socket.replies == [] && backend.sent == [] && backend.handedOver == [] && backend.created == 0
      requires socket.journal == backend.journal && backend.journal.actions == []
      ensures r.None? <==> n == 0
      ensures r.Some? ==> fresh(r.value) && r.value.Valid() && r.value.active.Length == n && r.value.Vars(Starting) == InitialServer(n)
    {
      if n == 0 {
        return None;
      }
      var server := new Server(n, dataSize, socket, backend);
      return Some(server);
    }

    /** gen_data: the contents come from /dev/urandom, here the argument. */
    method GenData(random: seq<byte>)
      requires Valid() && |random| == dataSize
      modifies this`dataBuf, backend`borrowed
      ensures Valid() && dataBuf != null && fresh(dataBuf) && dataBuf[..] == random
      ensures backend.borrowed == old(backend.borrowed) + {dataBuf}
    {
      var buf := backend.GetNetBuf();
      forall i | 0 <= i < dataSize {
        buf[i] := random[i];
      }
      dataBuf := buf;
    }

    /** check_active_connections. */
    method CheckActiveConnections()
      requires Valid()
      modifies this`allActive, this`allUnactive
      ensures Valid()
      ensures forall m :: Vars(m) == Check(old(Vars(m)))
      ensures allActive <==> forall i | 0 <= i < active.Length :: active[i]
      ensures allUnactive <==> forall i | 0 <= i < active.Length :: !active[i]
    {
      allActive := AllOf(active, true);
      allUnactive := AllOf(active, false);
    }

    /** std::all_of, and std::none_of with value false. */
    static method AllOf(a: array<bool>, value: bool) returns (r: bool)
      ensures r <==> forall i | 0 <= i < a.Length :: a[i] == value
    {
      var i := 0;
      while i < a.Length
        invariant i <= a.Length && forall k | 0 <= k < i :: a[k] == value
      {
        if a[i] != value {
          return false;
        }
        i := i + 1;
      }
      return true;
    }

    /** One iteration of the loop in start, without its check. */
    method StartOne(ghost cfg: Config) returns (outcome: ServerOutcome)
      requires Valid()
      modifies active, socket, backend.journal
      ensures Valid()
      ensures old(socket.incoming) == [] ==>
                outcome == Blocked(Starting) && Vars(Starting) == old(Vars(Starting)) && socket.incoming == []
      ensures old(socket.incoming) != [] ==>
                && socket.incoming == old(socket.incoming)[1..]
                && Ends(outcome, Respond(cfg, old(Vars(Starting)), old(socket.incoming)[0]), Starting)
    {
      var msg := socket.Recv();
      if msg.None? {
        return Blocked(Starting);
      }
      if msg.value.msgType != 0 {
        return Threw(InvalidStart);
      }
      if !(0 <= msg.value.rank < active.Length) {
        return Threw(NoSuchRank);
      }
      active[msg.value.rank] := true;
      socket.Send(StartOk);
      return Ended;
    }

    /** The outcome and the new state are those of r, a state reached in the given loop. */
    ghost predicate Ends(outcome: ServerOutcome, r: ServerVars, mode: Mode)
      reads this, active, socket, backend, backend.journal
    {
      && outcome == (if r.mode.Thrown? then Threw(r.mode.fault) else Ended)
      && Vars(mode) == r.(mode := mode)
    }

    /** start: receive, acknowledge and check until every entry is active. */
    method Start(ghost cfg: Config) returns (outcome: ServerOutcome)
      requires Valid()
      modifies this`allActive, this`allUnactive, active, socket, backend.journal
      ensures Valid()
      ensures |socket.incoming| <= |old(socket.incoming)|
      ensures Consumed(old(socket.incoming), socket.incoming) + socket.incoming == old(socket.incoming)
      ensures var log := Consumed(old(socket.incoming), socket.incoming);
              && StaysIn(cfg, old(Vars(Starting)), log, Starting)
              && Reached(outcome, Replay(cfg, old(Vars(Starting)), log), Starting, Serving)
      ensures outcome.Blocked? ==> socket.incoming == []
    {
      ghost var before := Vars(Starting);
      ghost var all := socket.incoming;
      ServedNone(cfg, before, all);
      hide Respond, Check, Served, Replay, StaysIn, Consumed, AllDistinct;
      while true
        invariant Valid() && Served(cfg, before, all, socket.incoming, Vars(Starting))
        decreases |socket.incoming|
      {
        ghost var v, rest := Vars(Starting), socket.incoming;
        ServedSoFar(cfg, before, all, rest, v);
        if rest != [] {
          ServedMore(cfg, before, all, rest, v);
        }
        outcome := StartOne(cfg);
        if outcome != Ended {
          return;
        }
        CheckActiveConnections();
        assert Vars(Starting) == Check(Respond(cfg, v, rest[0]));
        if allActive {
          return;
        }
      }
    }

    /** The decoded address, in an array of exactly the rounded-up size. */
    static method DecodeAddress(t: TransferBody) returns (r: Result<array<byte>, Fault>)
      ensures if t.addrSize > |t.addr| || t.addrSize > OBJECT_MAX then r == Failure(OverRead)
              else match Handoff.ServerBuffer(t.addr, t.addrSize)
                   case Failure(_) => r == Failure(BadAddress)
                   case Success(buffer) => r.Success? && fresh(r.value) && r.value[..] == buffer
    {
      if t.addrSize > |t.addr| || t.addrSize > OBJECT_MAX {
        return Failure(OverRead);
      }
      var encAddr := new byte[|t.addr|](i requires 0 <= i < |t.addr| => t.addr[i]);
      var addrSize := DecodedLength(t.addrSize);
      DecodedLengthExact(t.addrSize);
      var addr := new byte[addrSize];
      hide DecodedLength, Rfc4648, Splice, Base64InPlace.DecodeEffect;
      assert encAddr[..t.addrSize] == t.addr[..t.addrSize];
      ghost var effect := Base64InPlace.DecodeEffect(Rfc4648(), t.addr[..t.addrSize], addrSize);
      if effect.ret.Success? {
        SpliceAll(addr[..], effect.written);
      }
      var ret := Base64InPlace.DecodeUsingMaps(Rfc4648(), addr, addrSize, encAddr, t.addrSize);
      if ret.Failure? {
        return Failure(BadAddress);
      }
      return Success(addr);
    }

    /** Hand over addr, set the tag and open an endpoint to the worker that addr resolves to. */
    method Connect(addr: array<byte>, tag: nat) returns (connected: bool)
      requires Valid() && addr !in backend.handedOver
      modifies backend, backend.journal
      ensures backend.Valid() && !backend.overwritten && backend.tag == tag && backend.remoteAddr == addr
      ensures backend.handedOver == old(backend.handedOver) + [addr]
      ensures backend.sent == old(backend.sent) && backend.borrowed == old(backend.borrowed)
      ensures backend.returned == old(backend.returned)
      ensures connected <==> addr[..] in backend.network
      ensures connected ==>
                && backend.remoteEp == Some(backend.network[addr[..]]) && backend.created == old(backend.created) + 1
                && backend.journal.actions == old(backend.journal.actions) + [OpenEndpoint(backend.network[addr[..]])]
      ensures !connected ==> backend.journal.actions == old(backend.journal.actions)
    {
      hide AllDistinct;
      backend.SetRemoteAddr(addr, addr.Length);
      backend.SetTag(tag);
      assert addr[..addr.Length] == addr[..];
      var e := backend.EstablishConnection();
      return e.None?;
    }

    /** Connect to addr, send the buffer under the client's tag, wait, close, in this order: the send never finds the endpoint missing, and
        afterwards the address was released. */
    method Deliver(ghost cfg: Config, addr: array<byte>, tag: nat) returns (fault: Option<Fault>)
      requires Valid() && Filled(cfg) && addr !in backend.handedOver
      modifies backend, backend.journal
      ensures Filled(cfg) && backend.borrowed == old(backend.borrowed) && backend.returned == old(backend.returned)
      ensures backend.handedOver == old(backend.handedOver) + [addr]
      ensures if addr[..] in cfg.network then
                var d := Dispatch(cfg.network[addr[..]], Parcel(tag, cfg.data));
                && fault.None? && Valid() && backend.sent == old(backend.sent) + [d]
                && backend.journal.actions == old(backend.journal.actions) +
                     [OpenEndpoint(d.worker), SendParcel(d), AwaitSend, CloseEndpoint, ReleaseAddress]
              else
                && fault == Some(NoEndpoint) && backend.sent == old(backend.sent)
                && backend.journal.actions == old(backend.journal.actions)
    {
      hide AllDistinct;
      var connected := Connect(addr, tag);
      if !connected {
        return Some(NoEndpoint);
      }
      assert dataBuf[..dataSize] == dataBuf[..];
      var e := backend.Send(dataBuf, dataSize);
      assert e.None?;
      backend.CommWait();
      e := backend.CloseConnection();
      return None;
    }

    /** The server's part of a transfer: one newly decoded address is handed over and released, one payload sent. */
    method Transfer(ghost cfg: Config, t: TransferBody) returns (fault: Option<Fault>)
      requires Valid() && Filled(cfg)
      modifies backend, backend.journal
      ensures Filled(cfg) && backend.borrowed == old(backend.borrowed) && backend.returned == old(backend.returned)
      ensures fault != Some(NoEndpoint) ==> Valid()
      ensures var work := HandleTransfer(cfg, t);
              if work.Send? then
                var d := Dispatch(work.worker, work.parcel);
                && fault.None? && backend.sent == old(backend.sent) + [d]
                && backend.journal.actions == old(backend.journal.actions) +
                     [OpenEndpoint(d.worker), SendParcel(d), AwaitSend, CloseEndpoint, ReleaseAddress]
              else
                && fault == Some(work.fault) && backend.sent == old(backend.sent)
                && backend.journal.actions == old(backend.journal.actions)
      ensures fault.None? ==>
                var n := |old(backend.released)|;
                && |backend.released| == n + 1 && backend.released[..n] == old(backend.released)
                && fresh(backend.released[n])
    {
      hide Handoff.ServerBuffer;
      var addr := DecodeAddress(t);
      if addr.Failure? {
        return Some(addr.error);
      }
      fault := Deliver(cfg, addr.value, t.tag);
    }

    /** single_run. */
    method SingleRun(ghost cfg: Config) returns (outcome: ServerOutcome)
      requires Valid() && Filled(cfg)
      modifies active, socket, backend, backend.journal
      ensures Filled(cfg) && backend.borrowed == old(backend.borrowed) && backend.returned == old(backend.returned)
      ensures outcome != Threw(NoEndpoint) ==> Valid()
      ensures old(socket.incoming) == [] ==>
                outcome == Blocked(Serving) && Vars(Serving) == old(Vars(Serving)) && socket.incoming == []
      ensures old(socket.incoming) != [] ==>
                && socket.incoming == old(socket.incoming)[1..]
                && Ends(outcome, Respond(cfg, old(Vars(Serving)), old(socket.incoming)[0]), Serving)
    {
      hide HandleTransfer;
      var msg := socket.Recv();
      if msg.None? {
        return Blocked(Serving);
      }
      var rank := msg.value.rank;
      if !(0 <= rank < active.Length) {
        return Threw(NoSuchRank);
      }
      if !active[rank] {
        return Threw(ClosedConnection);
      }
      if msg.value.msgType == 1 {
        if msg.value.body.None? {
          return Threw(MissingField);
        }
        var fault := Transfer(cfg, msg.value.body.value);
        if fault.Some? {
          return Threw(fault.value);
        }
        socket.Send(IterOk);
      } else if msg.value.msgType == 2 {
        active[rank] := false;
        socket.Send(DisconnectOk);
      } else {
        return Threw(InvalidType);
      }
      return Ended;
    }

    /** The loop in run: serve and check until no entry is active. */
    method RunLoop(ghost cfg: Config) returns (outcome: ServerOutcome)
      requires Valid() && Filled(cfg)
      modifies this`allActive, this`allUnactive, active, socket, backend, backend.journal
      ensures outcome != Threw(NoEndpoint) ==> Valid()
      ensures Filled(cfg) && backend.borrowed == old(backend.borrowed) && backend.returned == old(backend.returned)
      ensures |socket.incoming| <= |old(socket.incoming)|
      ensures Consumed(old(socket.incoming), socket.incoming) + socket.incoming == old(socket.incoming)
      ensures var log := Consumed(old(socket.incoming), socket.incoming);
              && StaysIn(cfg, old(Vars(Serving)), log, Serving)
              && Reached(outcome, Replay(cfg, old(Vars(Serving)), log), Serving, Stopped)
      ensures outcome.Blocked? ==> socket.incoming == []
    {
      ghost var before := Vars(Serving);
      ghost var all := socket.incoming;
      ServedNone(cfg, before, all);
      hide Respond, Check, Served, Replay, StaysIn, Consumed, AllDistinct;
      while true
        invariant Valid() && Filled(cfg) && backend.borrowed == old(backend.borrowed) && backend.returned == old(backend.returned)
        invariant Served(cfg, before, all, socket.incoming, Vars(Serving))
        decreases |socket.incoming|
      {
        ghost var v, rest := Vars(Serving), socket.incoming;
        ServedSoFar(cfg, before, all, rest, v);
        if rest != [] {
          ServedMore(cfg, before, all, rest, v);
        }
        outcome := SingleRun(cfg);
        if outcome != Ended {
          return;
        }
        CheckActiveConnections();
        assert Vars(Serving) == Check(Respond(cfg, v, rest[0]));
        if allUnactive {
          return;
        }
      }
    }

    /** run: fill the buffer once, loop, return the buffer. */
    method Run(ghost cfg: Config, random: seq<byte>) returns (outcome: ServerOutcome)
      requires Valid() && |random| == dataSize && cfg.data == random && cfg.network == backend.network
      modifies this`allActive, this`allUnactive, this`dataBuf, active, socket, backend, backend.journal
      ensures outcome != Threw(NoEndpoint) ==> Valid()
      ensures |socket.incoming| <= |old(socket.incoming)|
      ensures Consumed(old(socket.incoming), socket.incoming) + socket.incoming == old(socket.incoming)
      ensures var log := Consumed(old(socket.incoming), socket.incoming);
              && StaysIn(cfg, old(Vars(Serving)), log, Serving)
              && Reached(outcome, Replay(cfg, old(Vars(Serving)), log), Serving, Stopped)
      ensures outcome.Blocked? ==> socket.incoming == []
      ensures outcome == Ended ==>
                backend.borrowed == old(backend.borrowed) && backend.returned == old(backend.returned) + [random]
    {
      hide Replay, StaysIn, Consumed;
      GenData(random);
      outcome := RunLoop(cfg);
      if outcome == Ended {
        backend.ReturnNetBuf(dataBuf);
      }
    }

    /** The requests that were received between two states of the queue. */
    static ghost function Consumed(before: seq<Envelope>, after: seq<Envelope>): seq<Envelope>
      requires |after| <= |before|
    {
      before[..|before| - |after|]
    }

    /** Serving the requests received so far, of all, leads to v without leaving v's loop; rest is still to come. */
    static ghost predicate Served(cfg: Config, before: ServerVars, all: seq<Envelope>, rest: seq<Envelope>, v: ServerVars) {
      && |rest| <= |all| && Consumed(all, rest) + rest == all
      && Replay(cfg, before, Consumed(all, rest)) == v && StaysIn(cfg, before, Consumed(all, rest), v.mode)
    }

    static lemma ServedNone(cfg: Config, before: ServerVars, all: seq<Envelope>)
      ensures Served(cfg, before, all, all, before)
    {
    }

    static lemma ServedSoFar(cfg: Config, before: ServerVars, all: seq<Envelope>, rest: seq<Envelope>, v: ServerVars)
      requires Served(cfg, before, all, rest, v)
      ensures |rest| <= |all| && Consumed(all, rest) + rest == all
      ensures Replay(cfg, before, Consumed(all, rest)) == v && StaysIn(cfg, before, Consumed(all, rest), v.mode)
    {
    }

    /** One more request served, in terms of what a single iteration and the check establish. */
    static lemma ServedMore(cfg: Config, before: ServerVars, all: seq<Envelope>, rest: seq<Envelope>, v: ServerVars)
      requires Served(cfg, before, all, rest, v) && rest != [] && (v.mode.Starting? || v.mode.Serving?)
      ensures var r := Respond(cfg, v, rest[0]);
              var v' := if r.mode.Thrown? then r else LoopTest(Check(r));
              && Consumed(all, rest[1..]) + rest[1..] == all
              && Replay(cfg, before, Consumed(all, rest[1..])) == v'
              && StaysIn(cfg, before, Consumed(all, rest[1..]), v.mode)
              && (v'.mode == v.mode ==> Served(cfg, before, all, rest[1..], v'))
    {
      hide Respond, LoopTest, Check, StaysIn;
      var log := Consumed(all, rest);
      assert Consumed(all, rest[1..]) == log + [rest[0]] by {
        assert all[|log|] == rest[0];
      }
      assert (log + [rest[0]])[..|log|] == log;
      StaysInMore(cfg, before, log, rest[0], v.mode);
    }

    /** A loop in mode during ended in the state r: normally in mode next, by a throw, or blocked in mode during. */
    ghost predicate Reached(outcome: ServerOutcome, r: ServerVars, during: Mode, next: Mode)
      reads this, active, socket, backend, backend.journal
    {
      match outcome
      case Ended => Vars(next) == r
      case Threw(fault) => r.mode == Thrown(fault) && Vars(during) == r.(mode := during)
      case Blocked(at) => at == during && Vars(during) == r
    }
  }
}

/** The server's handling of a request case by case: every request there can be, not only those the clients send. */
module ServerCases {
  import opened Wrappers
  import opened Bytes
  import opened Base64
  import opened Base64Lengths
  import opened Base64Writes
  import opened Messages
  import opened ServerModel
  import Handoff
  import Base64InPlace

  /** In the start loop: a wrong type is looked at before the rank. */
  lemma StartCases(active: seq<bool>, r: Request)
    ensures HandleStart(active, r) == Throw(InvalidStart) <==> r.msgType != 0
    ensures HandleStart(active, r) == Throw(NoSuchRank) <==> r.msgType == 0 && (r.rank < 0 || |active| <= r.rank)
    ensures r.msgType == 0 && 0 <= r.rank < |active| ==>
              var w := HandleStart(active, r);
              && w.Acknowledge? && w.reply == StartOk && |w.active| == |active|
              && forall i | 0 <= i < |active| :: w.active[i] == (active[i] || i == r.rank)
  {
  }

  /** In the run loop: the rank before its table entry, that before the type, and the table changes for a STOP only. */
  lemma RunCases(cfg: Config, active: seq<bool>, r: Request)
    ensures var w := HandleRun(cfg, active, r);
            if r.rank < 0 || |active| <= r.rank then w == Throw(NoSuchRank)
            else if !active[r.rank] then w == Throw(ClosedConnection)
            else if r.msgType == 2 then
              && w.Acknowledge? && w.reply == DisconnectOk && |w.active| == |active|
              && forall i | 0 <= i < |active| :: w.active[i] == (active[i] && i != r.rank)
            else if r.msgType != 1 then w == Throw(InvalidType)
            else if r.body.None? then w == Throw(MissingField)
            else w == HandleTransfer(cfg, r.body.value)
  {
    hide HandleTransfer;
  }

  /** The bytes the server connects to: the octets of the letters among the first size characters, and zeros. */
  function Resolved(addr: seq<byte>, size: nat): seq<byte>
    requires size <= |addr| && size <= OBJECT_MAX
  {
    var octets := Octets(Rfc4648(), addr[..Letters(addr[..size])]);
    octets + Repeat(if DecodedLength(size) >= |octets| then DecodedLength(size) - |octets| else 0, 0)
  }

  /** A transfer: a size beyond the string, a string the decoder rejects, or an address that resolves to no worker is a
      throw; otherwise the buffer goes to that worker under the tag of the request. */
  lemma TransferCases(cfg: Config, t: TransferBody)
    ensures var w := HandleTransfer(cfg, t);
            if t.addrSize > |t.addr| || t.addrSize > OBJECT_MAX then w == Throw(OverRead)
            else if !Accepts(Rfc4648(), t.addr[..t.addrSize]) then w == Throw(BadAddress)
            else
              var worker := Resolved(t.addr, t.addrSize);
              if worker !in cfg.network then w == Throw(NoEndpoint)
              else w == Send(cfg.network[worker], Parcel(t.tag, cfg.data))
  {
    hide Accepts, Octets, Letters, Rfc4648, Base64InPlace.DecodeEffect;
    if t.addrSize <= |t.addr| && t.addrSize <= OBJECT_MAX {
      var s := t.addr[..t.addrSize];
      var p := EffectByGroups(Rfc4648(), s, DecodedLength(t.addrSize));
      if Accepts(Rfc4648(), s) {
        assert s[..p] == t.addr[..p];
      }
    }
  }

  /** What is done for a request, in order: a payload is sent, waited for and its endpoint closed before the reply. */
  lemma RespondCases(cfg: Config, v: ServerVars, e: Envelope)
    requires v.mode.Starting? || v.mode.Serving?
    ensures var r := Respond(cfg, v, e);
            match Handle(cfg, v, e.request)
            case Throw(fault) =>
              && r.mode == Thrown(fault) && r.actions == v.actions + [RecvRequest(e)]
              && r.active == v.active && r.replies == v.replies && r.dispatched == v.dispatched
            case Acknowledge(active, reply) =>
              && r.mode == v.mode && r.actions == v.actions + [RecvRequest(e), SendReply(Routed(e.peer, reply))]
              && r.active == active && r.replies == v.replies + [Routed(e.peer, reply)] && r.dispatched == v.dispatched
            case Send(worker, parcel) =>
              var d := Dispatch(worker, parcel);
              && r.mode == v.mode && r.active == v.active
              && r.actions == v.actions + [RecvRequest(e), OpenEndpoint(worker), SendParcel(d), AwaitSend, CloseEndpoint,
                                           ReleaseAddress, SendReply(Routed(e.peer, IterOk))]
              && r.replies == v.replies + [Routed(e.peer, IterOk)] && r.dispatched == v.dispatched + [d]
  {
    hide Handle;
  }
}

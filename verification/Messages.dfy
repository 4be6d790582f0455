/** What server and clients exchange, and the parameters of a run. */
module Messages {
  import opened Wrappers
  import opened Bytes
  import opened Base64Lengths
  import Base64
  import Base64Maps
  import Base64Rfc4648

  /** The fields only a transfer request has: the client's tag and its encoded worker address. */
  datatype TransferBody = TransferBody(tag: nat, addr: seq<byte>, addrSize: nat)

  /** A JSON request: rank, msg_type and, when present, the transfer fields. */
  datatype Request = Request(rank: int, msgType: int, body: Option<TransferBody>)

  /** A JSON reply, named by the one field it holds. */
  datatype Reply = StartOk | IterOk | DisconnectOk

  /** A request together with the socket identity that the reply will be routed to. */
  datatype Envelope = Envelope(peer: nat, request: Request)

  datatype Routed = Routed(peer: nat, reply: Reply)

  /** A tagged message on the data channel. */
  datatype Parcel = Parcel(tag: nat, data: seq<byte>)

  datatype Dispatch = Dispatch(worker: nat, parcel: Parcel)

  /** What a client or the server does at its interfaces. */
  datatype Action =
    // the client
    | SendRequest(request: Request)
    | RecvReply(reply: Reply)
    | LeaveBarrier
    | RecvParcel(parcel: Parcel)
    // the server
    | RecvRequest(envelope: Envelope)
    | OpenEndpoint(worker: nat)
    | SendParcel(dispatch: Dispatch)
    | AwaitSend
    | CloseEndpoint
    | ReleaseAddress
    | SendReply(routed: Routed)

  /** The pregenerated tables both sides use. */
  function Rfc4648(): Base64Maps.Maps {
    Base64Rfc4648.PregeneratedFitsCodec();
    Base64Rfc4648.Pregenerated()
  }

  /** One run: per client its iterations and worker address; which worker an address blob resolves to; the
      server's random buffer; the size the clients expect; and whether a send may complete before it is matched. */
  datatype Config = Config(
    iters: seq<nat>,
    addrs: seq<seq<byte>>,
    network: map<seq<byte>, nat>,
    data: seq<byte>,
    dataSize: nat,
    eager: bool)
  {
    function N(): nat { |iters| }

    /** The assumptions on a run: at least one client; equal sizes on both sides; addresses whose encoding is an
        object of the implementation; and an address followed by at most two zero bytes resolves to its worker. */
    ghost predicate Valid() {
      && N() >= 1 && |addrs| == N()
      && |data| == dataSize
      && (forall c | 0 <= c < N() :: |addrs[c]| <= OBJECT_MAX && EncodedLength(|addrs[c]|) < OBJECT_MAX)
      && (forall c, z | 0 <= c < N() && 0 <= z <= 2 ::
            addrs[c] + Repeat(z, 0) in network && network[addrs[c] + Repeat(z, 0)] == c)
    }
  }

  function StartRequest(c: nat): Request {
    Request(c, 0, None)
  }

  /** The encoded address with the NUL that the client's buffer has room for; the size does not count the NUL. */
  function TransferRequest(cfg: Config, c: nat): Request
    requires c < |cfg.addrs|
  {
    var encoded := Base64.Encode(Rfc4648(), cfg.addrs[c]);
    Request(c, 1, Some(TransferBody(c, encoded + [0], |encoded|)))
  }

  function StopRequest(c: nat): Request {
    Request(c, 2, None)
  }
}

/** The client as a class: ordered sends and receives on the request socket and on the data channel. */
module ClientProgram {
  import opened Wrappers
  import opened Bytes
  import opened Base64Lengths
  import opened Messages
  import opened Protocol
  import opened ClientModel
  import opened History
  import opened Backend
  import opened Base64
  import Base64InPlace

  datatype ClientFault = InvalidReply | PayloadTooLong | WrongSize | CannotEncode

  type ClientOutcome = Outcome<ClientPhase, ClientFault>

  function PhaseAfter(outcome: ClientOutcome, next: ClientPhase): ClientPhase {
    match outcome
    case Ended => next
    case Blocked(at) => at
    case Threw(_) => Failed
  }

  /** The request socket: the replies still to come and the requests sent. */
  class RequestSocket {
    const journal: Journal
    var incoming: seq<Reply>
    var sent: seq<Request>

    /** Exactly the requests that the journal records were sent. */
    ghost predicate Recorded()
      reads this, journal
    {
      sent == Requests(journal.actions)
    }

    constructor (incoming: seq<Reply>, journal: Journal)
      ensures this.incoming == incoming && sent == [] && this.journal == journal
    {
      this.incoming, sent, this.journal := incoming, [], journal;
    }

    method Send(request: Request)
      modifies this`sent, journal
      ensures sent == old(sent) + [request] && journal.actions == old(journal.actions) + [SendRequest(request)]
      ensures old(Recorded()) ==> Recorded()
      ensures Payloads(journal.actions) == Payloads(old(journal.actions))
    {
      PayloadsMore(journal.actions, SendRequest(request));
      RequestsMore(journal.actions, SendRequest(request));
      sent := sent + [request];
      journal.actions := journal.actions + [SendRequest(request)];
    }

    method Recv() returns (r: Option<Reply>)
      modifies this`incoming, journal
      ensures old(incoming) == [] ==> r.None? && incoming == [] && journal.actions == old(journal.actions)
      ensures old(incoming) != [] ==>
                && r == Some(old(incoming)[0]) && incoming == old(incoming)[1..]
                && journal.actions == old(journal.actions) + [RecvReply(old(incoming)[0])]
      ensures sent == old(sent) && (old(Recorded()) ==> Recorded())
      ensures Payloads(journal.actions) == Payloads(old(journal.actions))
    {
      if incoming == [] {
        return None;
      }
      r := Some(incoming[0]);
      RequestsMore(journal.actions, RecvReply(incoming[0]));
      PayloadsMore(journal.actions, RecvReply(incoming[0]));
      journal.actions := journal.actions + [RecvReply(incoming[0])];
      incoming := incoming[1..];
    }
  }

  class Client {
    const rank: nat
    const numIters: nat
    const dataSize: nat
    const socket: RequestSocket
    const backend: TagBackend

    /** The client at a given place in its code, as the value that the client model works on. */
    ghost function Vars(phase: ClientPhase, remaining: nat): ClientVars
      reads socket, backend, backend.journal
    {
      ClientVars(phase, remaining, backend.journal.actions, socket.incoming, backend.mail)
    }

    /** What every method keeps that does not throw: every payload received was in a buffer that was returned. */
    ghost predicate Valid()
      reads this, socket, backend, socket.journal, backend.journal
    {
      && Operational() && backend.returned == Payloads(backend.journal.actions)
    }

    ghost predicate Operational()
      reads this, socket, backend, socket.journal
    {
      && socket.journal == backend.journal && socket.Recorded()
      && backend.mode == RECV && backend.tag == rank && backend.dataSize == dataSize && backend.Disconnected()
      && backend.localAddr.Length <= OBJECT_MAX && EncodedLength(backend.localAddr.Length) < OBJECT_MAX
    }

    /** This object is client rank of the run. */
    ghost predicate Plays(cfg: Config)
      reads backend.localAddr
    {
      && rank < cfg.N() == |cfg.addrs| && numIters == cfg.iters[rank] && dataSize == cfg.dataSize
      && backend.localAddr[..] == cfg.addrs[rank]
    }

    constructor (rank: nat, numIters: nat, dataSize: nat, socket: RequestSocket, backend: TagBackend)
      requires socket.journal == backend.journal && socket.Recorded() && backend.Disconnected()
      requires backend.returned == Payloads(backend.journal.actions)
      requires backend.mode == RECV && backend.tag == rank && backend.dataSize == dataSize
      requires backend.localAddr.Length <= OBJECT_MAX && EncodedLength(backend.localAddr.Length) < OBJECT_MAX
      ensures Valid() && this.rank == rank && this.numIters == numIters && this.dataSize == dataSize
      ensures this.socket == socket && this.backend == backend
    {
      this.rank, this.numIters, this.dataSize := rank, numIters, dataSize;
      this.socket, this.backend := socket, backend;
    }

    /** MPI_Barrier; that it returns only when every client has called it is in the protocol. */
    method Barrier()
      modifies backend.journal
      ensures backend.journal.actions == old(backend.journal.actions) + [LeaveBarrier]
      ensures old(Valid()) ==> Valid()
    {
      RequestsMore(backend.journal.actions, LeaveBarrier);
      PayloadsMore(backend.journal.actions, LeaveBarrier);
      backend.journal.actions := backend.journal.actions + [LeaveBarrier];
    }

    /** start. */
    method Start(ghost cfg: Config) returns (outcome: ClientOutcome)
      requires Valid() && Plays(cfg)
      modifies socket, backend.journal
      ensures Valid() && Plays(cfg)
      ensures var v := Vars(PhaseAfter(outcome, Looping), numIters);
              v == Settle(cfg, rank, old(Vars(Fresh, numIters)), 3) && (outcome != Ended ==> !CanStep(rank, v))
      ensures socket.sent == old(socket.sent) + [Request(rank, 0, None)]
      ensures outcome == if old(socket.incoming) == [] then Blocked(AwaitOk)
                         else if old(socket.incoming)[0] == StartOk then Ended
                         else Threw(InvalidReply)
    {
      hide Requests, Payloads;
      SettleThree(cfg, rank, Vars(Fresh, numIters));
      socket.Send(Request(rank, 0, None));
      var response := socket.Recv();
      if response.None? {
        return Blocked(AwaitOk);
      }
      if response.value != StartOk {
        return Threw(InvalidReply);
      }
      Barrier();
      return Ended;
    }

    /** The transfer message in full: the address in base64 (section 4 of RFC 4648), a NUL, the length without it. */
    ghost function TransferMessage(): Request
      requires backend.localAddr.Length <= OBJECT_MAX
      reads backend.localAddr
    {
      Request(rank, 1, Some(TransferBody(rank, EncodingByGroups(Rfc4648(), backend.localAddr[..]) + [0],
                                         EncodedLength(backend.localAddr.Length))))
    }

    /** The serialized local address, with the byte after the encoding, and the size sent with it. */
    method EncodeAddress(ghost cfg: Config) returns (r: Option<(seq<byte>, nat)>)
      requires Valid() && Plays(cfg)
      ensures r.Some? && TransferRequest(cfg, rank) == Request(rank, 1, Some(TransferBody(rank, r.value.0, r.value.1)))
      ensures r.value.0 == EncodingByGroups(Rfc4648(), backend.localAddr[..]) + [0]
      ensures r.value.1 == EncodedLength(backend.localAddr.Length) == |r.value.0| - 1
    {
      EncodeByGroups(Rfc4648(), backend.localAddr[..]);
      hide Encode, EncodingByGroups, EncodedLength, Rfc4648, Splice;
      var src := backend.localAddr;
      var encSize := EncodedLength(src.Length);
      var encBuf := new byte[encSize + 1];
      ghost var encoded := Encode(Rfc4648(), src[..src.Length]);
      assert src[..src.Length] == src[..];
      ghost var before := encBuf[..];
      var ret := Base64InPlace.EncodeUsingMaps(Rfc4648(), encBuf, encSize + 1, src, src.Length);
      if ret.Failure? {
        return None;
      }
      SpliceAll(before, encoded + Repeat(1, 0));
      assert encBuf[..encSize + 1] == encBuf[..] && Repeat(1, 0 as byte) == [0];
      return Some((encBuf[..encSize + 1], encSize));
    }

    /** How receiving from this mailbox ends: no parcel under the client's tag, or the first one's size decides. */
    ghost function Probed(mail: seq<Parcel>): ClientOutcome {
      var i := FirstMatch(mail, rank);
      if i == |mail| then Blocked(AwaitPayload)
      else if |mail[i].data| > dataSize then Threw(PayloadTooLong)
      else if |mail[i].data| < dataSize then Threw(WrongSize)
      else Ended
    }

    /** Probe, receive into dataBuf and check the size: one step of the client. */
    method TakeParcel(ghost cfg: Config, dataBuf: array<byte>, ghost remaining: nat) returns (outcome: ClientOutcome)
      requires Valid() && Plays(cfg) && dataBuf.Length == dataSize && dataBuf != backend.localAddr
      modifies backend`mail, backend.journal, dataBuf
      ensures Operational() && Plays(cfg) && (outcome.Blocked? ==> Valid())
      ensures var v := Vars(PhaseAfter(outcome, AwaitReply), remaining);
              v == Attempt(cfg, rank, old(Vars(AwaitPayload, remaining))) && (outcome != Ended ==> !CanStep(rank, v))
      ensures outcome == Probed(old(backend.mail))
      ensures outcome == Ended ==>
                && dataBuf[..] == old(backend.mail)[FirstMatch(old(backend.mail), rank)].data
                && Payloads(backend.journal.actions) == backend.returned + [dataBuf[..]]
    {
      ParcelsAreNoRequests(backend.journal.actions);
      PayloadAttempt(cfg, rank, Vars(AwaitPayload, remaining));
      hide TransferRequest, FirstMatch, Splice, Requests, Payloads, Advance, Attempt, CanStep, AllDistinct, EncodedLength;
      ghost var room := dataBuf[..];
      var received := backend.Recv(dataBuf);
      if received == NoMatch {
        return Blocked(AwaitPayload);
      }
      if received == Overrun {
        return Threw(PayloadTooLong);
      }
      if received.length != dataSize {
        return Threw(WrongSize);
      }
      SpliceAll(room, old(backend.mail)[FirstMatch(old(backend.mail), rank)].data);
      return Ended;
    }

    /** The middle of single_run: a buffer is borrowed, filled with the next parcel under this client's tag, and returned;
        no connection needs to be made. */
    method ReceivePayload(ghost cfg: Config, ghost remaining: nat) returns (outcome: ClientOutcome)
      requires Valid() && Plays(cfg)
      modifies backend, backend.journal
      ensures Operational() && Plays(cfg) && (!outcome.Threw? ==> Valid())
      ensures outcome == Ended ==> backend.borrowed == old(backend.borrowed)
      ensures var v := Vars(PhaseAfter(outcome, AwaitReply), remaining);
              v == Attempt(cfg, rank, old(Vars(AwaitPayload, remaining))) && (outcome != Ended ==> !CanStep(rank, v))
      ensures outcome == Probed(old(backend.mail))
      ensures outcome == Ended ==>
                backend.returned ==
                old(backend.returned) + [old(backend.mail)[FirstMatch(old(backend.mail), rank)].data]
    {
      hide TransferRequest, Requests, Payloads, FirstMatch, Attempt, CanStep, AllDistinct, EncodedLength;
      var dataBuf := backend.GetNetBuf();
      var e := backend.EstablishConnection();
      outcome := TakeParcel(cfg, dataBuf, remaining);
      if outcome != Ended {
        return;
      }
      backend.CommWait();
      e := backend.CloseConnection();
      backend.ReturnNetBuf(dataBuf);
    }

    /** single_run, with remaining iterations to go: three steps of the client, or as many as can be taken. */
    method SingleRun(ghost cfg: Config, tag: nat, ghost remaining: nat) returns (outcome: ClientOutcome)
      requires Valid() && Plays(cfg) && tag == rank && remaining > 0
      modifies socket, backend, backend.journal
      ensures Plays(cfg) && socket.Recorded() && (outcome == Ended ==> Valid() && backend.borrowed == old(backend.borrowed))
      ensures socket.sent == old(socket.sent) + [TransferMessage()]
      ensures outcome == if Probed(old(backend.mail)) != Ended then Probed(old(backend.mail))
                         else if old(socket.incoming) == [] then Blocked(AwaitReply)
                         else if old(socket.incoming)[0] == IterOk then Ended
                         else Threw(InvalidReply)
      ensures var v := Vars(PhaseAfter(outcome, Looping), if outcome == Ended then remaining - 1 else remaining);
              && v == Settle(cfg, rank, old(Vars(Looping, remaining)), 3)
              && (outcome != Ended ==> !CanStep(rank, v))
    {
      hide TransferRequest, FirstMatch, Settle, Requests, Payloads, EncodingByGroups, EncodedLength, Rfc4648, Probed;
      SettleThree(cfg, rank, Vars(Looping, remaining));
      var address := EncodeAddress(cfg);
      socket.Send(Request(rank, 1, Some(TransferBody(tag, address.value.0, address.value.1))));
      assert Vars(AwaitPayload, remaining) == Attempt(cfg, rank, old(Vars(Looping, remaining)));
      outcome := ReceivePayload(cfg, remaining);
      if outcome != Ended {
        return;
      }
      var response := socket.Recv();
      if response.None? {
        return Blocked(AwaitReply);
      }
      if response.value != IterOk {
        return Threw(InvalidReply);
      }
      return Ended;
    }

    /** run: numIters iterations and then a STOP that is not waited for. */
    method Run(ghost cfg: Config) returns (outcome: ClientOutcome)
      requires Valid() && Plays(cfg)
      modifies socket, backend, backend.journal
      ensures socket.Recorded() && (outcome == Ended ==> Valid() && backend.borrowed == old(backend.borrowed))
      ensures var v := Settle(cfg, rank, old(Vars(Looping, numIters)), 3 * numIters + 1);
              Vars(PhaseAfter(outcome, Finished), v.remaining) == v && (outcome.Blocked? ==> !outcome.at.Finished?)
      ensures outcome == Ended ==>
                socket.sent == old(socket.sent) + Repeat(numIters, TransferMessage()) + [Request(rank, 2, None)]
    {
      hide Settle, FirstMatch, TransferRequest, Requests, Payloads, TransferMessage;
      ghost var before := Vars(Looping, numIters);
      var tag := backend.GetTag();
      var i := 0;
      SettleNothing(cfg, rank, before);
      while i < numIters
        invariant i <= numIters && Valid() && Plays(cfg) && backend.borrowed == old(backend.borrowed)
        invariant Vars(Looping, numIters - i) == Settle(cfg, rank, before, 3 * i)
        invariant socket.sent == old(socket.sent) + Repeat(i, TransferMessage())
      {
        RepeatMore(i, TransferMessage());
        outcome := SingleRun(cfg, tag, numIters - i);
        SettleMore(cfg, rank, before, 3 * i, 3);
        i := i + 1;
        if outcome != Ended {
          SettleMore(cfg, rank, before, 3 * i, 3 * (numIters - i) + 1);
          StuckStays(cfg, rank, Settle(cfg, rank, before, 3 * i), 3 * (numIters - i) + 1);
          return;
        }
      }
      SettleNext(cfg, rank, before, 3 * numIters);
      socket.Send(Request(rank, 2, None));
      return Ended;
    }
  }
}

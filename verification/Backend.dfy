/** The tag-matching backend: the life of its endpoint and of the address it was given. */
module Backend {
  import opened Wrappers
  import opened Bytes
  import opened Messages
  import opened Protocol

  datatype CommMode = SEND | RECV | NONE

  datatype BackendError = InvalidMode | CreateFailed | EndpointMissing

  /** A probe that finds nothing never ends; a message longer than the buffer would be written past its end. */
  datatype RecvOutcome = NoMatch | Overrun | Received(length: nat)

  /** What one program has done at all its interfaces, in order. */
  class Journal {
    ghost var actions: seq<Action>

    constructor ()
      ensures actions == []
    {
      actions := [];
    }
  }

  predicate AllDistinct(blocks: seq<array<byte>>) {
    forall i, j | 0 <= i < j < |blocks| :: blocks[i] != blocks[j]
  }

  /** AbstractBackend and TagBackend in the default build. The endpoint is the worker it leads to. network stands for
      ucp_ep_create, sent and mail for the data channel. */
  class TagBackend {
    const mode: CommMode
    const dataSize: nat
    const network: map<seq<byte>, nat>
    const localAddr: array<byte>
    const journal: Journal
    var remoteEp: Option<nat>
    var remoteAddr: array?<byte>
    var remoteAddrSize: nat
    var tag: nat
    var sent: seq<Dispatch>
    var mail: seq<Parcel>
    /** The addresses handed over by set_remote_addr and those released, in order; endpoints created and closed; and
        the network buffers that were given out and not returned. */
    ghost var handedOver: seq<array<byte>>
    ghost var released: seq<array<byte>>
    ghost var created: nat
    ghost var closed: nat
    ghost var borrowed: set<array<byte>>
    /** What the returned network buffers contained, in order. */
    ghost var returned: seq<seq<byte>>
    /** A held address or an open endpoint was once overwritten, and so lost. */
    ghost var overwritten: bool

    /** What every operation keeps: no address is handed over twice, and unless one was overwritten, the addresses handed
        over are those released and the one held, and the endpoints created are those closed and the one open. */
    ghost predicate Valid()
      reads this
    {
      && AllDistinct(handedOver)
      && (!overwritten ==> handedOver == released + (if remoteAddr == null then [] else [remoteAddr]))
      && (!overwritten ==> created == closed + (if remoteEp.Some? then 1 else 0))
      && (remoteAddr == null ==> remoteAddrSize == 0)
      && (remoteAddr != null ==> remoteAddrSize <= remoteAddr.Length)
    }

    /** No endpoint is open, no address is held, and every address handed over was released, once. */
    ghost predicate Disconnected()
      reads this
    {
      && Valid() && !overwritten
      && remoteEp.None? && remoteAddr == null && released == handedOver && created == closed
    }

    constructor (mode: CommMode, dataSize: nat, rank: nat, network: map<seq<byte>, nat>, mail: seq<Parcel>,
                 localAddr: array<byte>, journal: Journal)
      ensures Disconnected() && handedOver == [] && created == 0 && borrowed == {} && returned == []
      ensures this.mode == mode && this.dataSize == dataSize && this.network == network
      ensures this.localAddr == localAddr && this.journal == journal
      ensures tag == rank && sent == [] && this.mail == mail
    {
      this.mode, this.dataSize, this.network, this.mail := mode, dataSize, network, mail;
      this.localAddr, this.journal := localAddr, journal;
      borrowed, overwritten, returned := {}, false, [];
      remoteEp, remoteAddr, remoteAddrSize, tag, sent := None, null, 0, rank, [];
      handedOver, released, created, closed := [], [], 0, 0;
    }

    method GetTag() returns (t: nat)
      ensures t == tag
    {
      return tag;
    }

    method GetNetBuf() returns (buf: array<byte>)
      requires Valid()
      modifies this`borrowed
      ensures Valid() && fresh(buf) && buf.Length == dataSize && borrowed == old(borrowed) + {buf}
    {
      buf := new byte[dataSize];
      borrowed := borrowed + {buf};
    }

    /** return_net_buf frees its argument, which must be in use, or null. */
    method ReturnNetBuf(buf: array?<byte>)
      requires Valid() && (buf == null || buf in borrowed)
      modifies this`borrowed, this`returned
      ensures Valid() && borrowed == if buf == null then old(borrowed) else old(borrowed) - {buf}
      ensures returned == old(returned) + if buf == null then [] else [buf[..]]
    {
      if buf == null {
        return;
      }
      returned := returned + [buf[..]];
      borrowed := borrowed - {buf};
    }

    /** set_remote_addr takes over the caller's block; what it held before is not released. */
    method SetRemoteAddr(addr: array?<byte>, len: nat)
      requires Valid()
      requires addr != null ==> len <= addr.Length && addr !in handedOver
      modifies this`remoteAddr, this`remoteAddrSize, this`handedOver, this`overwritten
      ensures Valid()
      ensures addr != null ==>
                && remoteAddr == addr && remoteAddrSize == len && handedOver == old(handedOver) + [addr]
                && overwritten == (old(overwritten) || old(remoteAddr) != null)
      ensures addr == null ==>
                && remoteAddr == old(remoteAddr) && remoteAddrSize == old(remoteAddrSize)
                && handedOver == old(handedOver) && overwritten == old(overwritten)
    {
      if addr != null {
        overwritten := overwritten || remoteAddr != null;
        remoteAddr := addr;
        remoteAddrSize := len;
        handedOver := handedOver + [addr];
      }
    }

    method SetTag(tag: nat)
      requires Valid()
      modifies this`tag
      ensures Valid() && this.tag == tag
    {
      this.tag := tag;
    }

    method EstablishConnection() returns (e: Option<BackendError>)
      requires Valid()
      modifies this`remoteEp, this`created, this`overwritten, journal
      ensures Valid()
      ensures var found := mode == SEND && remoteAddr != null && remoteAddr[..remoteAddrSize] in network;
              if found then
                && e.None? && remoteEp == Some(network[remoteAddr[..remoteAddrSize]])
                && created == old(created) + 1 && overwritten == (old(overwritten) || old(remoteEp).Some?)
                && journal.actions == old(journal.actions) + [OpenEndpoint(network[remoteAddr[..remoteAddrSize]])]
              else
                && remoteEp == old(remoteEp) && created == old(created) && overwritten == old(overwritten)
                && journal.actions == old(journal.actions)
                && e == match mode case SEND => Some(CreateFailed) case RECV => None case NONE => Some(InvalidMode)
    {
      if mode == SEND {
        if remoteAddr == null || remoteAddr[..remoteAddrSize] !in network {
          return Some(CreateFailed);
        }
        overwritten := overwritten || remoteEp.Some?;
        remoteEp := Some(network[remoteAddr[..remoteAddrSize]]);
        created := created + 1;
        journal.actions := journal.actions + [OpenEndpoint(remoteEp.value)];
        return None;
      } else if mode == RECV {
        return None;
      }
      return Some(InvalidMode);
    }

    method Send(buf: array<byte>, buflen: nat) returns (e: Option<BackendError>)
      requires Valid() && buflen <= buf.Length
      modifies this`sent, journal
      ensures Valid()
      ensures remoteEp.None? ==> e == Some(EndpointMissing) && sent == old(sent) && journal.actions == old(journal.actions)
      ensures remoteEp.Some? ==>
                var d := Dispatch(remoteEp.value, Parcel(tag, buf[..buflen]));
                e.None? && sent == old(sent) + [d] && journal.actions == old(journal.actions) + [SendParcel(d)]
    {
      if remoteEp.None? {
        return Some(EndpointMissing);
      }
      ghost var d := Dispatch(remoteEp.value, Parcel(tag, buf[..buflen]));
      sent := sent + [Dispatch(remoteEp.value, Parcel(tag, buf[..buflen]))];
      journal.actions := journal.actions + [SendParcel(d)];
      return None;
    }

    /** comm_wait; a received message is already in its buffer, so that only the wait for a send is an event. */
    method CommWait()
      requires Valid()
      modifies journal
      ensures Valid()
      ensures mode == SEND ==> journal.actions == old(journal.actions) + [AwaitSend]
      ensures mode != SEND ==> journal.actions == old(journal.actions)
    {
      if mode == SEND {
        journal.actions := journal.actions + [AwaitSend];
      }
    }

    /** Probing with the full mask: the first message with this backend's tag is removed and copied to the buffer. */
    method Recv(buf: array<byte>) returns (r: RecvOutcome)
      requires Valid()
      modifies this`mail, journal, buf
      ensures Valid()
      ensures var i := FirstMatch(old(mail), tag);
              if i == |old(mail)| then
                r == NoMatch && mail == old(mail) && journal.actions == old(journal.actions) && buf[..] == old(buf[..])
              else
                var p := old(mail)[i];
                && mail == old(mail)[..i] + old(mail)[i + 1..]
                && journal.actions == old(journal.actions) + [RecvParcel(p)]
                && if |p.data| > buf.Length then r == Overrun
                   else r == Received(|p.data|) && buf[..] == Splice(old(buf[..]), 0, p.data)
    {
      var i := FirstMatch(mail, tag);
      if i == |mail| {
        return NoMatch;
      }
      var p := mail[i];
      mail := mail[..i] + mail[i + 1..];
      journal.actions := journal.actions + [RecvParcel(p)];
      if |p.data| > buf.Length {
        return Overrun;
      }
      forall k | 0 <= k < |p.data| {
        buf[k] := p.data[k];
      }
      return Received(|p.data|);
    }

    method CloseConnection() returns (e: Option<BackendError>)
      requires Valid()
      modifies this`remoteEp, this`remoteAddr, this`remoteAddrSize, this`released, this`closed, journal
      ensures Valid()
      ensures mode == SEND ==> e.None? && remoteEp.None? && remoteAddr == null && (!overwritten ==> Disconnected())
      ensures mode == SEND ==>
                journal.actions == old(journal.actions) + (if old(remoteEp).Some? then [CloseEndpoint] else [])
                                   + (if old(remoteAddr) != null then [ReleaseAddress] else [])
      ensures mode == RECV ==> e.None?
      ensures mode == NONE ==> e == Some(InvalidMode)
      ensures mode != SEND ==>
                && journal.actions == old(journal.actions)
                && remoteEp == old(remoteEp) && remoteAddr == old(remoteAddr) && remoteAddrSize == old(remoteAddrSize)
                && released == old(released) && closed == old(closed)
    {
      if mode == SEND {
        if remoteEp.Some? {
          remoteEp := None;
          closed := closed + 1;
          journal.actions := journal.actions + [CloseEndpoint];
        }
        if remoteAddr != null {
          released := released + [remoteAddr];
          journal.actions := journal.actions + [ReleaseAddress];
          remoteAddr := null;
          remoteAddrSize := 0;
        }
        return None;
      } else if mode == RECV {
        return None;
      }
      return Some(InvalidMode);
    }
  }
}

/** One client on its own, against the replies and parcels that reach it. */
module ClientModel {
  import opened Wrappers
  import opened Bytes
  import opened Messages
  import opened ServerModel
  import opened Protocol
  import opened Invariant
  import opened History
  import opened ServerLog

  /** Where the client is in its code, what it has done, and the replies and parcels it has not yet read. */
  datatype ClientVars = ClientVars(
    phase: ClientPhase,
    remaining: nat,
    actions: seq<Action>,
    replies: seq<Reply>,
    mail: seq<Parcel>)

  /** The requests among the actions, in order. */
  function Requests(actions: seq<Action>): seq<Request> {
    if actions == [] then []
    else
      var last := actions[|actions| - 1];
      Requests(actions[..|actions| - 1]) + if last.SendRequest? then [last.request] else []
  }

  /** The contents of the payloads received, in order. */
  function Payloads(actions: seq<Action>): seq<seq<byte>> {
    if actions == [] then []
    else
      var last := actions[|actions| - 1];
      Payloads(actions[..|actions| - 1]) + if last.RecvParcel? then [last.parcel.data] else []
  }

  lemma PayloadsMore(actions: seq<Action>, a: Action)
    ensures Payloads(actions + [a]) == Payloads(actions) + if a.RecvParcel? then [a.parcel.data] else []
  {
    assert (actions + [a])[..|actions|] == actions;
  }

  lemma {:induction false} PayloadsOfOpening(cfg: Config, c: nat, n: nat)
    requires c < |cfg.addrs|
    ensures Payloads(Opening(cfg, c, n)) == Repeat(n, cfg.data)
  {
    hide TransferRequest, Payloads, Opening, Round;
    RoundsMore(cfg, c, 0);
    if n == 0 {
      NoRequests();
      var start: seq<Action> := [SendRequest(StartRequest(c))];
      PayloadsMore([], SendRequest(StartRequest(c)));
      PayloadsMore(start, RecvReply(StartOk));
      assert [] + start == start && start + [RecvReply(StartOk)] == [SendRequest(StartRequest(c)), RecvReply(StartOk)];
      PayloadsMore([SendRequest(StartRequest(c)), RecvReply(StartOk)], LeaveBarrier);
    } else {
      PayloadsOfOpening(cfg, c, n - 1);
      RoundsMore(cfg, c, n - 1);
      RepeatMore(n - 1, cfg.data);
      var a := Opening(cfg, c, n - 1);
      PayloadsMore(a, SendRequest(TransferRequest(cfg, c)));
      PayloadsMore(a + Round(cfg, c)[..1], RecvParcel(Payload(cfg, c)));
      PayloadsMore(a + Round(cfg, c)[..2], RecvReply(IterOk));
    }
  }

  /** A client's whole script receives the server's data once for each iteration. */
  lemma PayloadsOfScript(cfg: Config, c: nat, n: nat)
    requires c < |cfg.addrs|
    ensures Payloads(ActionsAt(cfg, c, Finished, n)) == Repeat(n, cfg.data)
  {
    hide TransferRequest, Payloads, Opening;
    PayloadsOfOpening(cfg, c, n);
    PayloadsMore(Opening(cfg, c, n), SendRequest(StopRequest(c)));
  }

  lemma RequestsMore(actions: seq<Action>, a: Action)
    ensures Requests(actions + [a]) == Requests(actions) + if a.SendRequest? then [a.request] else []
  {
    assert (actions + [a])[..|actions|] == actions;
  }

  lemma ParcelsAreNoRequests(actions: seq<Action>)
    ensures forall p :: Requests(actions + [RecvParcel(p)]) == Requests(actions)
  {
    forall p ensures Requests(actions + [RecvParcel(p)]) == Requests(actions) {
      RequestsMore(actions, RecvParcel(p));
    }
  }

  lemma {:induction false} RequestsOfOpening(cfg: Config, c: nat, n: nat)
    requires c < |cfg.addrs|
    ensures Requests(Opening(cfg, c, n)) == Script(cfg, c, true, n, false)
  {
    hide TransferRequest, Requests, Opening, Round, Script;
    RoundsMore(cfg, c, 0);
    ScriptMore(cfg, c, 0);
    if n == 0 {
      NoRequests();
      RequestsMore([], SendRequest(StartRequest(c)));
      RequestsMore([SendRequest(StartRequest(c))], RecvReply(StartOk));
      assert [] + [SendRequest(StartRequest(c))] == [SendRequest(StartRequest(c))];
      assert [SendRequest(StartRequest(c))] + [RecvReply(StartOk)] == [SendRequest(StartRequest(c)), RecvReply(StartOk)];
      RequestsMore([SendRequest(StartRequest(c)), RecvReply(StartOk)], LeaveBarrier);
    } else {
      RequestsOfOpening(cfg, c, n - 1);
      RoundsMore(cfg, c, n - 1);
      ScriptMore(cfg, c, n - 1);
      var a := Opening(cfg, c, n - 1);
      RequestsMore(a, SendRequest(TransferRequest(cfg, c)));
      RequestsMore(a + Round(cfg, c)[..1], RecvParcel(Payload(cfg, c)));
      RequestsMore(a + Round(cfg, c)[..2], RecvReply(IterOk));
    }
  }

  lemma NoRequests()
    ensures Requests([]) == [] && Payloads([]) == []
  {
  }

  /** A client's whole script sends one START, a TRANSFER for each iteration and one STOP. */
  lemma RequestsOfScript(cfg: Config, c: nat, n: nat)
    requires c < |cfg.addrs|
    ensures Requests(ActionsAt(cfg, c, Finished, n)) == Script(cfg, c, true, n, true)
  {
    hide TransferRequest, Requests, Opening, Script;
    RequestsOfOpening(cfg, c, n);
    RequestsMore(Opening(cfg, c, n), SendRequest(StopRequest(c)));
    ScriptMore(cfg, c, n);
  }

  /** The barrier is taken to open; the other two waits need something to have arrived. */
  predicate CanStep(c: nat, v: ClientVars) {
    match v.phase
    case AwaitOk => v.replies != []
    case AwaitPayload => FirstMatch(v.mail, c) < |v.mail|
    case AwaitReply => v.replies != []
    case Finished => false
    case Failed => false
    case _ => true
  }

  function Did(v: ClientVars, a: Action, next: ClientPhase): ClientVars {
    v.(phase := next, actions := v.actions + [a])
  }

  function Advance(cfg: Config, c: nat, v: ClientVars): ClientVars
    requires c < |cfg.addrs| && CanStep(c, v)
  {
    match v.phase
    case Fresh => Did(v, SendRequest(StartRequest(c)), AwaitOk)
    case AwaitOk =>
      Did(v, RecvReply(v.replies[0]), if v.replies[0] == StartOk then AtBarrier else Failed).(replies := v.replies[1..])
    case AtBarrier => Did(v, LeaveBarrier, Looping)
    case Looping =>
      if v.remaining > 0 then Did(v, SendRequest(TransferRequest(cfg, c)), AwaitPayload)
      else Did(v, SendRequest(StopRequest(c)), Finished)
    case AwaitPayload =>
      var i := FirstMatch(v.mail, c);
      Did(v, RecvParcel(v.mail[i]), if |v.mail[i].data| == cfg.dataSize then AwaitReply else Failed)
      .(mail := v.mail[..i] + v.mail[i + 1..])
    case AwaitReply =>
      var ok := v.replies[0] == IterOk && v.remaining > 0;
      Did(v, RecvReply(v.replies[0]), if ok then Looping else Failed)
      .(replies := v.replies[1..], remaining := if ok then v.remaining - 1 else v.remaining)
  }

  function Attempt(cfg: Config, c: nat, v: ClientVars): ClientVars
    requires c < |cfg.addrs|
  {
    if CanStep(c, v) then Advance(cfg, c, v) else v
  }

  /** Waiting for the payload: the first parcel under the client's tag, and a failure when its size is wrong. */
  lemma PayloadAttempt(cfg: Config, c: nat, v: ClientVars)
    requires c < |cfg.addrs| && v.phase.AwaitPayload?
    ensures var i := FirstMatch(v.mail, c);
            if i == |v.mail| then Attempt(cfg, c, v) == v && !CanStep(c, v)
            else
              var p, w := v.mail[i], v.(actions := v.actions + [RecvParcel(v.mail[i])], mail := v.mail[..i] + v.mail[i + 1..]);
              Attempt(cfg, c, v) == w.(phase := if |p.data| == cfg.dataSize then AwaitReply else Failed)
    ensures forall w: ClientVars | w.phase.Failed? :: !CanStep(c, w)
  {
    hide FirstMatch;
  }

  /** Up to n steps, as far as what has arrived allows. */
  function Settle(cfg: Config, c: nat, v: ClientVars, n: nat): ClientVars
    requires c < |cfg.addrs|
  {
    if n == 0 then v else Attempt(cfg, c, Settle(cfg, c, v, n - 1))
  }

  lemma SettleNothing(cfg: Config, c: nat, v: ClientVars)
    requires c < |cfg.addrs|
    ensures Settle(cfg, c, v, 0) == v
  {
  }

  lemma SettleNext(cfg: Config, c: nat, v: ClientVars, n: nat)
    requires c < |cfg.addrs|
    ensures Settle(cfg, c, v, n + 1) == Attempt(cfg, c, Settle(cfg, c, v, n))
  {
    hide Attempt;
  }

  lemma SettleThree(cfg: Config, c: nat, v: ClientVars)
    requires c < |cfg.addrs|
    ensures Settle(cfg, c, v, 3) == Attempt(cfg, c, Attempt(cfg, c, Attempt(cfg, c, v)))
  {
    hide Attempt;
    assert Settle(cfg, c, v, 1) == Attempt(cfg, c, v);
    assert Settle(cfg, c, v, 2) == Attempt(cfg, c, Attempt(cfg, c, v));
  }

  lemma {:induction false} SettleMore(cfg: Config, c: nat, v: ClientVars, m: nat, n: nat)
    requires c < |cfg.addrs|
    ensures Settle(cfg, c, v, m + n) == Settle(cfg, c, Settle(cfg, c, v, m), n)
  {
    hide Attempt;
    if n > 0 {
      SettleMore(cfg, c, v, m, n - 1);
    }
  }

  lemma {:induction false} StuckStays(cfg: Config, c: nat, v: ClientVars, n: nat)
    requires c < |cfg.addrs| && !CanStep(c, v)
    ensures Settle(cfg, c, v, n) == v
  {
    hide CanStep, Advance;
    if n > 0 {
      StuckStays(cfg, c, v, n - 1);
    }
  }

  // ---- The client within a run ----

  function VarsOf(cfg: Config, s: State, c: nat): ClientVars
    requires Shaped(cfg, s) && c < cfg.N()
  {
    ClientVars(s.clients[c].phase, s.clients[c].remaining, s.clients[c].actions, s.outbox[c], s.mail[c])
  }

  function RepliesTo(replies: seq<Routed>, c: nat): seq<Reply> {
    if replies == [] then []
    else
      var last := replies[|replies| - 1];
      RepliesTo(replies[..|replies| - 1], c) + if last.peer == c then [last.reply] else []
  }

  /** The client at its beginning, with everything that will reach it. */
  function Provided(cfg: Config, c: nat, replies: seq<Reply>, mail: seq<Parcel>): ClientVars
    requires c < cfg.N()
  {
    ClientVars(Fresh, cfg.iters[c], [], replies, mail)
  }

  function More(v: ClientVars, replies: seq<Reply>, mail: seq<Parcel>): ClientVars {
    v.(replies := v.replies + replies, mail := v.mail + mail)
  }

  lemma {:induction false} FirstMatchStays(mail: seq<Parcel>, more: seq<Parcel>, tag: nat)
    requires FirstMatch(mail, tag) < |mail|
    ensures FirstMatch(mail + more, tag) == FirstMatch(mail, tag)
  {
    var i, j := FirstMatch(mail, tag), FirstMatch(mail + more, tag);
    assert (mail + more)[i] == mail[i];
    assert j < |mail| ==> (mail + more)[j] == mail[j];
  }

  lemma AdvanceWithMore(cfg: Config, c: nat, v: ClientVars, replies: seq<Reply>, mail: seq<Parcel>)
    requires c < |cfg.addrs| && CanStep(c, v)
    ensures CanStep(c, More(v, replies, mail))
    ensures Advance(cfg, c, More(v, replies, mail)) == More(Advance(cfg, c, v), replies, mail)
  {
    hide TransferRequest, FirstMatch;
    if v.phase.AwaitPayload? {
      FirstMatchStays(v.mail, mail, c);
      var i := FirstMatch(v.mail, c);
      assert (v.mail + mail)[..i] + (v.mail + mail)[i + 1..] == v.mail[..i] + v.mail[i + 1..] + mail;
    } else if v.phase.AwaitOk? || v.phase.AwaitReply? {
      assert (v.replies + replies)[1..] == v.replies[1..] + replies;
    }
  }

  /** n steps are possible, one after the other. */
  predicate Unstalled(cfg: Config, c: nat, v: ClientVars, n: nat)
    requires c < |cfg.addrs|
  {
    n == 0 || (Unstalled(cfg, c, v, n - 1) && CanStep(c, Settle(cfg, c, v, n - 1)))
  }

  /** What arrives later changes nothing that was done before. */
  lemma {:induction false} SettleWithMore(cfg: Config, c: nat, v: ClientVars, n: nat, replies: seq<Reply>, mail: seq<Parcel>)
    requires c < |cfg.addrs| && Unstalled(cfg, c, v, n)
    ensures Unstalled(cfg, c, More(v, replies, mail), n)
    ensures Settle(cfg, c, More(v, replies, mail), n) == More(Settle(cfg, c, v, n), replies, mail)
  {
    hide Advance, CanStep, More;
    if n > 0 {
      SettleWithMore(cfg, c, v, n - 1, replies, mail);
      AdvanceWithMore(cfg, c, Settle(cfg, c, v, n - 1), replies, mail);
    }
  }

  lemma MatchIsAdvance(cfg: Config, s: State, c: nat)
    requires Shaped(cfg, s) && c < cfg.N() && s.clients[c].phase.AwaitPayload? && FirstMatch(s.mail[c], c) < |s.mail[c]|
    ensures VarsOf(cfg, MatchParcel(cfg, s, c), c) == Advance(cfg, c, VarsOf(cfg, s, c))
    ensures |MatchParcel(cfg, s, c).clients[c].actions| == |s.clients[c].actions| + 1
  {
    hide FirstMatch;
  }

  /** The client's step within the whole system is its step on its own. */
  lemma StepIsAdvance(cfg: Config, s: State, c: nat)
    requires Shaped(cfg, s) && c < cfg.N() && ClientEnabled(cfg, s, c)
    ensures CanStep(c, VarsOf(cfg, s, c))
    ensures VarsOf(cfg, StepClient(cfg, s, c), c) == Advance(cfg, c, VarsOf(cfg, s, c))
    ensures |StepClient(cfg, s, c).clients[c].actions| == |s.clients[c].actions| + 1
  {
    hide TransferRequest, FirstMatch, AllArrived, MatchParcel;
    if s.clients[c].phase.AwaitPayload? {
      MatchIsAdvance(cfg, s, c);
    }
  }

  /** Nothing but the barrier makes a client wait for another: otherwise it goes on whenever it could on its own. */
  lemma EnabledAlone(cfg: Config, s: State, c: nat)
    requires Shaped(cfg, s) && c < cfg.N()
    ensures ClientEnabled(cfg, s, c) <==>
            CanStep(c, VarsOf(cfg, s, c)) && (s.clients[c].phase.AtBarrier? ==> AllArrived(s.clients))
  {
    hide FirstMatch, AllArrived;
  }

  lemma OthersStand(cfg: Config, s: State, c: nat, d: nat)
    requires Shaped(cfg, s) && c < cfg.N() && d < cfg.N() && c != d && ClientEnabled(cfg, s, c)
    ensures VarsOf(cfg, StepClient(cfg, s, c), d) == VarsOf(cfg, s, d)
  {
    hide TransferRequest, FirstMatch, AllArrived;
  }

  /** What the server's step delivers to client c, as replies and as parcels. */
  lemma ServerDelivers(cfg: Config, s: State, c: nat) returns (replies: seq<Reply>, mail: seq<Parcel>)
    requires Shaped(cfg, s) && c < cfg.N() && ServerEnabled(cfg, s)
    ensures var s' := StepServer(cfg, s);
            && VarsOf(cfg, s', c) == More(VarsOf(cfg, s, c), replies, mail)
            && RepliesTo(s'.server.replies, c) == RepliesTo(s.server.replies, c) + replies
            && ParcelsTo(s'.server.dispatched, c) == ParcelsTo(s.server.dispatched, c) + mail
  {
    hide RepliesTo, ParcelsTo, LoopTest, Check;
    replies, mail := [], [];
    assert RepliesTo(s.server.replies, c) + [] == RepliesTo(s.server.replies, c);
    assert ParcelsTo(s.server.dispatched, c) + [] == ParcelsTo(s.server.dispatched, c);
    match s.phase {
      case Sending(_, worker, parcel) =>
        mail := if worker == c then [parcel] else [];
        OneMore(s.server.replies, s.server.dispatched, Routed(c, IterOk), Dispatch(worker, parcel), c);
      case Replying(peer, reply) =>
        replies := if peer == c then [reply] else [];
        OneMore(s.server.replies, s.server.dispatched, Routed(peer, reply), Dispatch(c, Parcel(0, [])), c);
        FinishAnswers(s.server, peer, reply);
      case Waiting(_, _, _) =>
    }
  }

  lemma FinishAnswers(v: ServerVars, peer: nat, reply: Reply)
    ensures Finish(v, peer, reply).replies == v.replies + [Routed(peer, reply)]
    ensures Finish(v, peer, reply).dispatched == v.dispatched
  {
  }

  lemma OneMore(replies: seq<Routed>, dispatched: seq<Dispatch>, r: Routed, d: Dispatch, c: nat)
    ensures RepliesTo(replies + [r], c) == RepliesTo(replies, c) + if r.peer == c then [r.reply] else []
    ensures ParcelsTo(dispatched + [d], c) == ParcelsTo(dispatched, c) + if d.worker == c then [d.parcel] else []
  {
    assert (replies + [r])[..|replies|] == replies;
    assert (dispatched + [d])[..|dispatched|] == dispatched;
  }

  lemma ReceiveLeavesClients(cfg: Config, s: State, c: nat, d: nat)
    requires Shaped(cfg, s) && c < cfg.N() && d < cfg.N() && ReceiveEnabled(cfg, s, d)
    ensures var s' := StepReceive(cfg, s, d);
            && VarsOf(cfg, s', c) == VarsOf(cfg, s, c)
            && s'.server.replies == s.server.replies && s'.server.dispatched == s.server.dispatched
  {
    hide Handle;
  }

  /** In every run, client c is where it gets on its own from everything sent to it so far, one step for each thing it
      has done. */
  lemma {:induction false} ClientReplays(cfg: Config, run: seq<Label>, c: nat)
    requires |cfg.addrs| == cfg.N() && After(cfg, run).Some? && c < cfg.N()
    ensures var s := After(cfg, run).value;
            var v := Provided(cfg, c, RepliesTo(s.server.replies, c), ParcelsTo(s.server.dispatched, c));
            var n := |s.clients[c].actions|;
            Unstalled(cfg, c, v, n) && Settle(cfg, c, v, n) == VarsOf(cfg, s, c)
  {
    hide StepClient, StepServer, StepReceive, Advance, CanStep, ClientEnabled, ServerEnabled, ReceiveEnabled;
    if run != [] {
      var before, l := run[..|run| - 1], run[|run| - 1];
      var s := After(cfg, before).value;
      ClientReplays(cfg, before, c);
      match l {
        case ClientMoves(d) =>
          ClientKeepsServer(cfg, s, d);
          if c == d {
            StepIsAdvance(cfg, s, c);
          } else {
            OthersStand(cfg, s, d, c);
          }
        case ServerReceives(d) => ReceiveLeavesClients(cfg, s, c, d);
        case ServerMoves =>
          var replies, mail := ServerDelivers(cfg, s, c);
          var v := Provided(cfg, c, RepliesTo(s.server.replies, c), ParcelsTo(s.server.dispatched, c));
          SettleWithMore(cfg, c, v, |s.clients[c].actions|, replies, mail);
      }
    }
  }
}

/** Every step of the message queue protocol keeps the lists, the slots and the tasks
    in agreement, and every queue sound (msg.c). */
module MsgLists {
  import opened Msg
  import opened MsgKeep
  import opened MsgRun
  import opened MsgSafe

  /** Everything is in order, except that task `t` is on no list and has no slot. */
  ghost predicate Detached(deny: Denials, s: State, t: nat) {
    && InRange(s) && (t < |s.slots| ==> s.slots[t] == NoSlot)
    && (forall u :: 0 <= u < |s.phases| && u != t ==> TaskOk(s, u))
    && (forall q :: 0 <= q < |s.queues| ==> ListsOk(s, q) && OffLists(s.queues[q], t))
    && (forall q :: 0 <= q < |s.queues| ==> QueueOk(deny, s, q))
  }

  /** Task `t` is not on the lists of a valid queue. */
  ghost predicate OffLists(q: Queue, t: nat) {
    q.valid ==> (forall r :: r in q.receivers ==> r.task != t) && (forall x :: x in q.senders ==> x.task != t)
  }

  /** From `s` to `s'` only queue `q`, task `t`, and slots of tasks that wait at `q`
      have changed, and nobody but `t` has lost a wake-up. */
  ghost predicate Local(s: State, s': State, q: nat, t: nat) {
    && |s.queues| == |s'.queues| && |s.phases| == |s'.phases| && |s.slots| == |s'.slots| == |s.phases|
    && (forall p :: 0 <= p < |s.queues| && p != q ==> s'.queues[p] == s.queues[p])
    && (forall u :: 0 <= u < |s.phases| && u != t ==> s'.phases[u] == s.phases[u])
    && (forall u :: 0 <= u < |s.phases| && u != t && !At(s.phases[u], q) ==> s'.slots[u] == s.slots[u])
    && (forall u :: u in s.woken && u != t ==> u in s'.woken)
  }

  ghost predicate At(p: Phase, q: nat) {
    !p.Idle? && p.q == q
  }

  lemma OtherQueue(deny: Denials, s: State, s': State, q: nat, t: nat, p: nat)
    requires Detached(deny, s, t) && Local(s, s', q, t) && p < |s.queues| && p != q
    ensures ListsOk(s', p) && QueueOk(deny, s', p)
  {
    hide Counted, Unmatched, Fits, Accepts;
    var Q := s.queues[p];
    assert ListsOk(s, p) && OffLists(Q, t) && QueueOk(deny, s, p);
    if Q.valid {
      SoundStays(deny, Q, s.woken, s'.woken);
    }
  }

  lemma OtherTask(deny: Denials, s: State, s': State, q: nat, t: nat, u: nat)
    requires Detached(deny, s, t) && Local(s, s', q, t) && u < |s.phases| && u != t && !At(s.phases[u], q)
        && InRange(s')
    ensures TaskOk(s', u)
  {
    assert TaskOk(s, u);
  }

  /** What remains to be shown of a local change. */
  lemma LocalOk(deny: Denials, s: State, s': State, q: nat, t: nat)
    requires Detached(deny, s, t) && Local(s, s', q, t) && q < |s.queues| && InRange(s')
    requires ListsOk(s', q) && QueueOk(deny, s', q)
    requires forall u :: 0 <= u < |s.phases| && (u == t || At(s.phases[u], q)) ==> TaskOk(s', u)
    ensures Structure(deny, s')
  {
    hide TaskOk, ListsOk, QueueOk, Detached, Local, At;
    forall u | 0 <= u < |s'.phases| ensures TaskOk(s', u) {
      LocalLengths(s, s', q, t);
      if u != t && !At(s.phases[u], q) {
        OtherTask(deny, s, s', q, t, u);
      }
    }
    forall p | 0 <= p < |s'.queues| ensures ListsOk(s', p) && QueueOk(deny, s', p) {
      LocalLengths(s, s', q, t);
      if p != q {
        OtherQueue(deny, s, s', q, t, p);
      }
    }
  }

  lemma LocalLengths(s: State, s': State, q: nat, t: nat)
    requires Local(s, s', q, t)
    ensures |s.queues| == |s'.queues| && |s.phases| == |s'.phases|
  {
  }

  lemma IdleDetached(deny: Denials, s: State, t: nat)
    requires Structure(deny, s) && t < |s.phases| && (s.phases[t].Idle? || s.phases[t].Retrying?)
    ensures Detached(deny, s, t)
  {
    assert TaskOk(s, t);
    forall q | 0 <= q < |s.queues| ensures OffLists(s.queues[q], t) {
      assert ListsOk(s, q);
    }
  }

  // ----- do_msgsnd -----

  lemma SendFailsOk(deny: Denials, s: State, t: nat, q: nat)
    requires Detached(deny, s, t) && t < |s.phases| && q < |s.queues|
    ensures Structure(deny, s.(phases := s.phases[t := Idle]))
  {
    hide Counted, Sound, Accepts;
    var s' := s.(phases := s.phases[t := Idle]);
    assert ListsOk(s, q) && OffLists(s.queues[q], t) && QueueOk(deny, s, q);
    forall u | 0 <= u < |s.phases| && u != t ensures TaskOk(s', u) {
      assert TaskOk(s, u);
    }
    LocalOk(deny, s, s', q, t);
  }

  lemma SendSleepsOk(deny: Denials, s: State, t: nat, q: nat, m: Message, nowait: bool)
    requires Detached(deny, s, t) && t < |s.phases| && q < |s.queues| && m.mtype >= 1
    requires SendOutcomeOf(s.queues[q], m, nowait) == SendSleeps
    ensures Structure(deny, SendRound(deny, s, t, q, m, nowait))
  {
    var s', Q := SendRound(deny, s, t, q, m, nowait), s.queues[q];
    assert ListsOk(s, q) && OffLists(Q, t) && QueueOk(deny, s, q);
    NoWrites(s.slots);
    assert Sound(deny, s'.queues[q], s'.woken) by {
      SendKeeps(deny, Q, m, t, nowait, s.woken);
    }
    hide Sound, Accepts, Fits;
    forall u | 0 <= u < |s.phases| && u != t ensures TaskOk(s', u) {
      assert TaskOk(s, u);
    }
    assert forall x :: x in s'.queues[q].senders <==> x in Q.senders || x == Sender(t, m.size);
    LocalOk(deny, s, s', q, t);
  }

  /** The slots after a message was accepted: the refused receivers have their error,
      the taker has the message, and all others have what they had. */
  lemma AcceptSlots(deny: Denials, q: Queue, m: Message, slots: seq<Slot>, u: nat)
    requires SlotsFree(slots, q.receivers) && DistinctReceivers(q.receivers) && u < |slots|
    ensures var e := Accept(deny, q, m);
            var v := WriteAll(slots, e.writes)[u];
            && (v == slots[u] || v == Failed(E2BIG) || v == Got(m))
            && (!OnList(q.receivers, u) ==> v == slots[u])
            && (forall r :: r in e.q.receivers && r.task == u ==> v == slots[u])
            && (forall r :: r in q.receivers && r.task == u && v == slots[u] ==> r in e.q.receivers)
  {
    hide Accepts, WriteAll, Handoff, Refusals;
    var e, o := Accept(deny, q, m), Handoff(deny, q.receivers, m);
    HandoffSplits(deny, q.receivers, m);
    RefusalsWrite(o.refused, E2BIG);
    WriteAllAt(slots, e.writes, u);
    forall w | w in e.writes
      ensures (w.v == Failed(E2BIG) && w.task in o.refused) || (w.v == Got(m) && o.taker == Some(w.task))
    {
    }
    if o.taker == Some(u) {
      assert Write(u, Got(m)) in e.writes;
    }
    if u in o.refused {
      assert Write(u, Failed(E2BIG)) in e.writes;
    }
  }

  lemma SentOk(deny: Denials, s: State, t: nat, q: nat, m: Message, nowait: bool)
    requires Detached(deny, s, t) && t < |s.phases| && q < |s.queues| && m.mtype >= 1
    requires SendOutcomeOf(s.queues[q], m, nowait) == Sent
    ensures Structure(deny, SendRound(deny, s, t, q, m, nowait))
  {
    hide WriteAll, Handoff, Refusals, Accepts;
    var s', Q, e := SendRound(deny, s, t, q, m, nowait), s.queues[q], Accept(deny, s.queues[q], m);
    assert ListsOk(s, q) && OffLists(Q, t) && QueueOk(deny, s, q);
    AcceptKeeps(deny, Q, m, s.woken);
    HandoffLeft(deny, Q.receivers, m);
    HandoffSplits(deny, Q.receivers, m);
    hide Sound, Fits;
    forall u | 0 <= u < |s.phases| ensures TaskOk(s', u) && (!At(s.phases[u], q) ==> s'.slots[u] == s.slots[u]) {
      AcceptSlots(deny, Q, m, s.slots, u);
      assert u != t ==> TaskOk(s, u);
    }
    forall r | r in e.q.receivers ensures Listed(s', q, r) {
      AcceptSlots(deny, Q, m, s.slots, r.task);
    }
    LocalOk(deny, s, s', q, t);
  }

  lemma SendRoundOk(deny: Denials, s: State, t: nat, q: nat, m: Message, nowait: bool)
    requires Detached(deny, s, t) && t < |s.phases| && q < |s.queues| && m.mtype >= 1
    ensures Structure(deny, SendRound(deny, s, t, q, m, nowait))
  {
    hide Structure, Detached;
    match SendOutcomeOf(s.queues[q], m, nowait)
    case Sent => SentOk(deny, s, t, q, m, nowait);
    case SendSleeps => SendSleepsOk(deny, s, t, q, m, nowait);
    case SendFails(_) =>
      NoWrites(s.slots);
      SendFailsOk(deny, s, t, q);
      assert SendRound(deny, s, t, q, m, nowait) == s.(phases := s.phases[t := Idle]);
  }

  lemma {:induction false} WithoutSenderOnly(ss: seq<Sender>, t: nat)
    requires DistinctSenders(ss)
    ensures DistinctSenders(WithoutSender(ss, t))
    ensures forall x :: x in WithoutSender(ss, t) <==> x in ss && x.task != t
  {
    if ss != [] {
      WithoutSenderOnly(ss[1..], t);
      assert forall x :: x in ss[1..] ==> x.task != ss[0].task;
    }
  }

  lemma {:induction false} WithoutReceiverOnly(rs: seq<Receiver>, t: nat)
    requires DistinctReceivers(rs)
    ensures DistinctReceivers(WithoutReceiver(rs, t))
    ensures forall x :: x in WithoutReceiver(rs, t) <==> x in rs && x.task != t
  {
    if rs != [] {
      WithoutReceiverOnly(rs[1..], t);
      assert forall x :: x in rs[1..] ==> x.task != rs[0].task;
    }
  }

  /** ss_del takes the sender off its list. */
  lemma SenderDetached(deny: Denials, s: State, t: nat)
    requires Structure(deny, s) && t < |s.phases| && s.phases[t].Sending? && s.queues[s.phases[t].q].valid
    ensures var q := s.phases[t].q;
            Detached(deny, s.(queues := s.queues[q := s.queues[q].(senders := WithoutSender(s.queues[q].senders, t))]),
                t)
  {
    var q := s.phases[t].q;
    var Q := s.queues[q];
    var ss := WithoutSender(Q.senders, t);
    var s' := s.(queues := s.queues[q := Q.(senders := ss)]);
    assert ListsOk(s, q) && QueueOk(deny, s, q) && TaskOk(s, t);
    WithoutSenderOnly(Q.senders, t);
    FewerSenders(deny, Q, ss, s.woken);
    hide Sound, WithoutSender;
    forall u | 0 <= u < |s.phases| && u != t ensures TaskOk(s', u) {
      assert TaskOk(s, u);
    }
    forall p | 0 <= p < |s.queues| ensures ListsOk(s', p) && OffLists(s'.queues[p], t) && QueueOk(deny, s', p) {
      assert ListsOk(s, p) && QueueOk(deny, s, p);
    }
  }

  lemma SendResumedOk(deny: Denials, s: State, t: nat, signal: bool)
    requires Structure(deny, s) && t < |s.phases| && s.phases[t].Sending?
    ensures Structure(deny, SendResumed(deny, s, t, signal))
  {
    var q, m := s.phases[t].q, s.phases[t].m;
    assert TaskOk(s, t);
    if !s.queues[q].valid {
      DeadSenderOk(deny, s, t);
    } else {
      var s' := s.(queues := s.queues[q := s.queues[q].(senders := WithoutSender(s.queues[q].senders, t))]);
      SenderDetached(deny, s, t);
      hide Structure, Detached;
      if signal {
        SendFailsOk(deny, s', t, q);
      } else {
        SendRoundOk(deny, s', t, q, m, false);
      }
    }
  }

  lemma DeadSenderOk(deny: Denials, s: State, t: nat)
    requires Structure(deny, s) && t < |s.phases| && s.phases[t].Sending? && !s.queues[s.phases[t].q].valid
    ensures Structure(deny, s.(phases := s.phases[t := Idle]))
  {
    hide Sound, Counted;
    var s' := s.(phases := s.phases[t := Idle]);
    forall u | 0 <= u < |s.phases| ensures TaskOk(s', u) {
      assert TaskOk(s, u);
    }
    forall p | 0 <= p < |s.queues| ensures ListsOk(s', p) && QueueOk(deny, s', p) {
      assert ListsOk(s, p) && QueueOk(deny, s, p);
    }
  }

  // ----- do_msgrcv -----

  lemma RecvSleepsOk(deny: Denials, s: State, t: nat, q: nat, w: Want)
    requires Detached(deny, s, t) && t < |s.phases| && q < |s.queues| && w.mode != SearchNumber
    requires RecvOutcomeOf(deny, s.queues[q], t, w) == RecvSleeps
    ensures Structure(deny, RecvRound(deny, s, t, q, w))
  {
    hide Chosen, Fitting, Stuck;
    var s', Q := RecvRound(deny, s, t, q, w), s.queues[q];
    assert ListsOk(s, q) && OffLists(Q, t) && QueueOk(deny, s, q);
    NoWrites(s.slots);
    assert Sound(deny, s'.queues[q], s'.woken) by {
      RecvKeeps(deny, Q, t, w, s.woken);
    }
    hide Sound, Accepts, Fits;
    forall u | 0 <= u < |s.phases| && u != t ensures TaskOk(s', u) {
      assert TaskOk(s, u);
    }
    assert forall r :: r in s'.queues[q].receivers <==> r in Q.receivers || r == ReceiverOf(t, w);
    LocalOk(deny, s, s', q, t);
  }

  lemma ReceivedOk(deny: Denials, s: State, t: nat, q: nat, w: Want)
    requires Detached(deny, s, t) && t < |s.phases| && q < |s.queues| && (w.mode == SearchNumber ==> w.nowait)
    requires RecvOutcomeOf(deny, s.queues[q], t, w).Received?
    ensures Structure(deny, RecvRound(deny, s, t, q, w))
  {
    hide Chosen, Fitting, Stuck;
    var s', Q := RecvRound(deny, s, t, q, w), s.queues[q];
    assert ListsOk(s, q) && OffLists(Q, t) && QueueOk(deny, s, q);
    NoWrites(s.slots);
    var Q' := Unlinked(Q, Chosen(deny, t, Q.messages, w.mtype, w.mode));
    RecvKeeps(deny, Q, t, w, s.woken);
    SoundStays(deny, s'.queues[q], (s.woken + Wakes(Q')) - {t}, s'.woken);
    WokenDistinct(Q', Q'.senders);
    FittingFits(Q', Q'.senders);
    hide Sound, Accepts, Fits;
    forall u | 0 <= u < |s.phases| && u != t ensures TaskOk(s', u) {
      assert TaskOk(s, u);
    }
    LocalOk(deny, s, s', q, t);
  }

  lemma RecvRoundOk(deny: Denials, s: State, t: nat, q: nat, w: Want)
    requires Detached(deny, s, t) && t < |s.phases| && |s.slots| == |s.phases| && q < |s.queues|
    requires w.mode == SearchNumber ==> w.nowait
    ensures Structure(deny, RecvRound(deny, s, t, q, w))
  {
    hide Structure, Detached, Chosen;
    var o := RecvOutcomeOf(deny, s.queues[q], t, w);
    if o.Received? {
      ReceivedOk(deny, s, t, q, w);
    } else if o == RecvSleeps {
      RecvSleepsOk(deny, s, t, q, w);
    } else {
      NoWrites(s.slots);
      SendFailsOk(deny, s, t, q);
      assert RecvRound(deny, s, t, q, w) == s.(phases := s.phases[t := Idle]);
    }
  }

  lemma FinishedOk(deny: Denials, s: State, t: nat)
    requires Structure(deny, s) && t < |s.phases| && s.phases[t].Waiting? && s.slots[t] != Pending
    ensures Structure(deny, Finished(s, t))
  {
    hide Sound, Counted;
    var s' := Finished(s, t);
    forall u | 0 <= u < |s.phases| ensures TaskOk(s', u) {
      assert TaskOk(s, u);
    }
    forall p | 0 <= p < |s.queues| ensures ListsOk(s', p) && QueueOk(deny, s', p) {
      assert ListsOk(s, p) && QueueOk(deny, s, p);
    }
  }

  lemma PeekedOk(deny: Denials, s: State, t: nat)
    requires Structure(deny, s) && t < |s.phases| && s.phases[t].Waiting?
    ensures Structure(deny, Peeked(s, t))
  {
    if s.slots[t] != Pending {
      FinishedOk(deny, s, t);
    } else {
      hide Sound, Counted;
      var s' := Peeked(s, t);
      forall u | 0 <= u < |s.phases| ensures TaskOk(s', u) {
        assert TaskOk(s, u);
      }
      forall p | 0 <= p < |s.queues| ensures ListsOk(s', p) && QueueOk(deny, s', p) {
        assert ListsOk(s, p) && QueueOk(deny, s, p);
      }
    }
  }

  lemma RecheckedOk(deny: Denials, s: State, t: nat, signal: bool)
    requires Structure(deny, s) && t < |s.phases| && s.phases[t].Waiting?
    ensures Structure(deny, Rechecked(s, t, signal))
  {
    if s.slots[t] != Pending {
      FinishedOk(deny, s, t);
    } else {
      ReceiverLeaves(deny, s, t, signal);
    }
  }

  lemma ReceiverLeaves(deny: Denials, s: State, t: nat, signal: bool)
    requires Structure(deny, s) && t < |s.phases| && s.phases[t].Waiting? && s.slots[t] == Pending
    ensures Structure(deny, Rechecked(s, t, signal))
  {
    var q := s.phases[t].q;
    var s', Q := Rechecked(s, t, signal), s.queues[q];
    assert ListsOk(s, q) && QueueOk(deny, s, q) && TaskOk(s, t);
    WithoutReceiverOnly(Q.receivers, t);
    FewerReceivers(deny, Q, WithoutReceiver(Q.receivers, t), s.woken);
    hide Sound, WithoutReceiver, Accepts;
    forall u | 0 <= u < |s.phases| ensures TaskOk(s', u) {
      assert TaskOk(s, u);
    }
    forall p | 0 <= p < |s.queues| ensures ListsOk(s', p) && QueueOk(deny, s', p) {
      assert ListsOk(s, p) && QueueOk(deny, s, p);
    }
  }

  // ----- msgget and msgctl -----

  lemma WholeDetached(deny: Denials, s: State, t: nat)
    requires Structure(deny, s) && t == |s.phases|
    ensures Detached(deny, s, t)
  {
    forall q | 0 <= q < |s.queues| ensures OffLists(s.queues[q], t) {
      assert ListsOk(s, q);
    }
  }

  lemma SetOk(deny: Denials, s: State, q: nat, qbytes: nat)
    requires Structure(deny, s) && q < |s.queues| && s.queues[q].valid
    ensures Structure(deny, Applied(s, q, SetEffect(s.queues[q], qbytes)))
  {
    hide Fitting, Stuck, Expunged, WriteAll;
    var s', Q := Applied(s, q, SetEffect(s.queues[q], qbytes)), s.queues[q];
    var Q' := Q.(qbytes := qbytes);
    assert ListsOk(s, q) && QueueOk(deny, s, q);
    SetKeeps(deny, Q, qbytes, s.woken);
    WokenDistinct(Q', Q'.senders);
    FittingFits(Q', Q'.senders);
    ExpungedWrite(Q.receivers, Pending);
    hide Sound, Accepts, Fits;
    forall u | 0 <= u < |s.phases| ensures s'.slots[u] == s.slots[u] && TaskOk(s', u) {
      WriteAllAt(s.slots, Expunged(Q.receivers, Pending), u);
      assert TaskOk(s, u);
    }
    WholeDetached(deny, s, |s.phases|);
    LocalOk(deny, s, s', q, |s.phases|);
  }

  lemma RmidOk(deny: Denials, s: State, q: nat)
    requires Structure(deny, s) && q < |s.queues| && s.queues[q].valid
    ensures Structure(deny, Applied(s, q, RmidEffect(s.queues[q])))
  {
    hide Expunged, WriteAll;
    var s', Q := Applied(s, q, RmidEffect(s.queues[q])), s.queues[q];
    var ws := Expunged(Q.receivers, Failed(EIDRM));
    assert ListsOk(s, q) && QueueOk(deny, s, q);
    ExpungedWrite(Q.receivers, Failed(EIDRM));
    hide Accepts, Fits;
    forall u | 0 <= u < |s.phases| ensures TaskOk(s', u) && (!At(s.phases[u], q) ==> s'.slots[u] == s.slots[u]) {
      WriteAllAt(s.slots, ws, u);
      assert TaskOk(s, u);
      if OnList(Q.receivers, u) {
        assert Write(u, Failed(EIDRM)) in ws;
      }
    }
    WholeDetached(deny, s, |s.phases|);
    LocalOk(deny, s, s', q, |s.phases|);
  }

  lemma DrainOk(deny: Denials, s: State, q: nat, freed: multiset<Message>)
    requires Structure(deny, s) && q < |s.queues| && !s.queues[q].valid
    ensures Structure(deny, Applied(s, q, Drained(s.queues[q])).(freed := freed))
  {
    var s' := Applied(s, q, Drained(s.queues[q])).(freed := freed);
    NoWrites(s.slots);
    assert ListsOk(s, q) && QueueOk(deny, s, q);
    hide Sound, Accepts, Fits;
    forall u | 0 <= u < |s.phases| ensures TaskOk(s', u) {
      assert TaskOk(s, u);
    }
    WholeDetached(deny, s, |s.phases|);
    LocalOk(deny, s, s', q, |s.phases|);
  }

  lemma NewQueueOk(deny: Denials, s: State, qbytes: nat)
    requires Structure(deny, s)
    ensures Structure(deny, s.(queues := s.queues + [Queue(true, [], [], [], 0, 0, qbytes)]))
  {
    var s' := s.(queues := s.queues + [Queue(true, [], [], [], 0, 0, qbytes)]);
    forall u | 0 <= u < |s.phases| ensures TaskOk(s', u) {
      assert TaskOk(s, u);
    }
    forall p | 0 <= p < |s'.queues| ensures ListsOk(s', p) && QueueOk(deny, s', p) {
      if p < |s.queues| {
        assert ListsOk(s, p) && QueueOk(deny, s, p);
      }
    }
  }
}

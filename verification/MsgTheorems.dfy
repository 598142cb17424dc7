/** What the message queue protocol guarantees in every run (msg.c). */
module MsgTheorems {
  import opened Msg
  import opened MsgKeep
  import opened MsgRun
  import opened MsgSafe
  import opened MsgLists

  lemma StepStructure(deny: Denials, s: State, a: Action)
    requires Structure(deny, s) && Enabled(s, a)
    ensures Structure(deny, Step(deny, s, a))
  {
    hide Structure, SendRound, RecvRound, SendResumed, Applied, Finished, Rechecked, Peeked;
    match a
    case NewQueue(qbytes) => NewQueueOk(deny, s, qbytes);
    case Send(t, q, m, nowait) =>
      IdleDetached(deny, s, t);
      SendRoundOk(deny, s, t, q, m, nowait);
    case SendAgain(t, signal) => SendResumedOk(deny, s, t, signal);
    case Receive(t, q, w) =>
      IdleDetached(deny, s, t);
      RecvRoundOk(deny, s, t, q, w);
    case ReceiveAgain(t) =>
      IdleDetached(deny, s, t);
      RetryMode(deny, s, t);
      RecvRoundOk(deny, s, t, s.phases[t].q, s.phases[t].w);
    case Peek(t) => PeekedOk(deny, s, t);
    case Recheck(t, signal) => RecheckedOk(deny, s, t, signal);
    case IpcSet(q, qbytes) => SetOk(deny, s, q, qbytes);
    case Rmid(q) => RmidOk(deny, s, q);
    case Drain(q) => DrainOk(deny, s, q, s.freed + multiset(s.queues[q].messages));
  }

  lemma RetryMode(deny: Denials, s: State, t: nat)
    requires Structure(deny, s) && t < |s.phases| && s.phases[t].Retrying?
    ensures s.phases[t].w.mode != SearchNumber
  {
    assert TaskOk(s, t);
  }

  lemma QueueReady(deny: Denials, s: State, q: nat)
    requires Structure(deny, s) && q < |s.queues|
    ensures ListsReady(s, q) && Counted(s.queues[q])
  {
    assert ListsOk(s, q) && QueueOk(deny, s, q);
  }

  lemma NoSlotFor(deny: Denials, s: State, t: nat)
    requires Structure(deny, s) && t < |s.phases| && !s.phases[t].Waiting?
    ensures s.slots[t] == NoSlot
  {
    assert TaskOk(s, t);
  }

  lemma ResumedAccounts(deny: Denials, s: State, t: nat, signal: bool)
    requires Structure(deny, s) && Accounts(s) && t < |s.phases| && s.phases[t].Sending?
    ensures Accounts(SendResumed(deny, s, t, signal))
  {
    hide Queued, SumBytes, SumNum, Held, WithoutSender, SendRound;
    var q, m := s.phases[t].q, s.phases[t].m;
    QueueReady(deny, s, q);
    var s' := s.(queues := s.queues[q := s.queues[q].(senders := WithoutSender(s.queues[q].senders, t))]);
    AccountsStay(s, s', q);
    if s.queues[q].valid && !signal {
      SendAccounts(deny, s', t, q, m, false);
    }
  }

  lemma RecheckAccounts(deny: Denials, s: State, t: nat, signal: bool)
    requires Structure(deny, s) && Accounts(s) && t < |s.phases| && s.phases[t].Waiting?
    ensures Accounts(Rechecked(s, t, signal))
  {
    hide Queued, SumBytes, SumNum, Held, WithoutReceiver;
    if s.slots[t] != Pending {
      FinishAccounts(s, t);
    } else {
      SlotUpdateEmpty(s.slots, t, NoSlot);
      AccountsStay(s, Rechecked(s, t, signal), s.phases[t].q);
    }
  }

  lemma StepAccounts(deny: Denials, s: State, a: Action)
    requires Structure(deny, s) && Enabled(s, a) && Accounts(s)
    ensures Accounts(Step(deny, s, a))
  {
    hide Queued, SumBytes, SumNum, Held, SendRound, RecvRound, SendResumed, Finished, Rechecked, TaskOk, ListsOk,
        QueueOk;
    match a
    case NewQueue(_) => NewQueueAccounts(deny, s, a);
    case Send(t, q, m, nowait) =>
      QueueReady(deny, s, q);
      SendAccounts(deny, s, t, q, m, nowait);
    case SendAgain(t, signal) => ResumedAccounts(deny, s, t, signal);
    case Receive(t, q, w) =>
      NoSlotFor(deny, s, t);
      RecvAccounts(deny, s, t, q, w);
    case ReceiveAgain(t) =>
      NoSlotFor(deny, s, t);
      RecvAccounts(deny, s, t, s.phases[t].q, s.phases[t].w);
    case Peek(t) =>
      if s.slots[t] != Pending {
        FinishAccounts(s, t);
      }
    case Recheck(t, signal) => RecheckAccounts(deny, s, t, signal);
    case IpcSet(q, _) =>
      QueueReady(deny, s, q);
      ControlAccounts(deny, s, a);
    case Rmid(q) =>
      QueueReady(deny, s, q);
      ControlAccounts(deny, s, a);
    case Drain(q) =>
      QueueReady(deny, s, q);
      DrainAccounts(deny, s, a);
  }

  /** Every step keeps the invariant. */
  lemma StepKeeps(deny: Denials, s: State, a: Action)
    requires Inv(deny, s) && Enabled(s, a)
    ensures Inv(deny, Step(deny, s, a))
  {
    hide Structure, Totals, Conserved, Step;
    StepStructure(deny, s, a);
    StepAccounts(deny, s, a);
  }

  /** The actions `run` lead from `s` to `s'`. */
  ghost predicate Reaches(deny: Denials, s: State, run: seq<Action>, s': State)
    decreases |run|
  {
    if run == [] then s' == s
    else InRange(s) && Enabled(s, run[0]) && Reaches(deny, Step(deny, s, run[0]), run[1..], s')
  }

  lemma {:induction false} RunKeeps(deny: Denials, s: State, run: seq<Action>, s': State)
    requires Inv(deny, s) && Reaches(deny, s, run, s')
    ensures Inv(deny, s')
    decreases |run|
  {
    hide Inv, Step;
    if run != [] {
      StepKeeps(deny, s, run[0]);
      RunKeeps(deny, Step(deny, s, run[0]), run[1..], s');
    }
  }

  lemma {:induction false} NothingHeld(slots: seq<Slot>)
    requires forall t :: 0 <= t < |slots| ==> slots[t] == NoSlot
    ensures Held(slots) == multiset{}
  {
    if slots != [] {
      NothingHeld(slots[..|slots| - 1]);
    }
  }

  lemma StartInv(deny: Denials, n: nat)
    ensures Inv(deny, Start(n))
  {
    NothingHeld(Start(n).slots);
  }

  // ----- what follows for callers -----

  /** In every run, a receiver that sleeps and has not been answered matches none of
      the messages on its queue, and its queue has not been removed. */
  lemma NoMissedMessage(deny: Denials, n: nat, run: seq<Action>, s: State, t: nat)
    requires Reaches(deny, Start(n), run, s) && t < |s.phases|
    requires s.phases[t].Waiting? && |s.slots| == |s.phases| && s.slots[t] == Pending
    ensures var p := s.phases[t];
            && p.q < |s.queues| && s.queues[p.q].valid
            && forall m :: m in s.queues[p.q].messages ==> !Matches(deny, t, m, p.w.mtype, p.w.mode)
  {
    StartInv(deny, n);
    RunKeeps(deny, Start(n), run, s);
    var p := s.phases[t];
    assert TaskOk(s, t) && QueueOk(deny, s, p.q);
    forall m | m in s.queues[p.q].messages ensures !Matches(deny, t, m, p.w.mtype, p.w.mode) {
      assert !Accepts(deny, ReceiverOf(t, p.w), m);
    }
  }

  /** In every run, the message of a sender that sleeps at a valid queue and has not
      been woken does not fit. */
  lemma NoForgottenSender(deny: Denials, n: nat, run: seq<Action>, s: State, t: nat)
    requires Reaches(deny, Start(n), run, s) && t < |s.phases| && s.phases[t].Sending?
    ensures s.phases[t].q < |s.queues|
    ensures s.queues[s.phases[t].q].valid && t !in s.woken ==> !Fits(s.queues[s.phases[t].q], s.phases[t].m.size)
  {
    StartInv(deny, n);
    RunKeeps(deny, Start(n), run, s);
    assert TaskOk(s, t) && QueueOk(deny, s, s.phases[t].q);
  }

  /** In every run, the counters of each queue and of the namespace are exact. */
  lemma ExactCounters(deny: Denials, n: nat, run: seq<Action>, s: State, q: nat)
    requires Reaches(deny, Start(n), run, s)
    ensures s.bytes == SumBytes(s.queues) && s.hdrs == SumNum(s.queues)
    ensures q < |s.queues| ==>
      s.queues[q].qnum == |s.queues[q].messages| && s.queues[q].cbytes == Bytes(s.queues[q].messages)
  {
    StartInv(deny, n);
    RunKeeps(deny, Start(n), run, s);
    if q < |s.queues| {
      assert QueueOk(deny, s, q);
    }
  }

  /** In every run, the accepted messages are those on queues, in slots, taken and
      freed, each as often as it was accepted. */
  lemma EachMessageOnce(deny: Denials, n: nat, run: seq<Action>, s: State)
    requires Reaches(deny, Start(n), run, s)
    ensures s.accepted == Queued(s.queues) + Elsewhere(s)
  {
    StartInv(deny, n);
    RunKeeps(deny, Start(n), run, s);
  }

  /** So a message that was accepted once is never in two slots, or in a slot and on a
      queue, or there and already taken. */
  lemma OneHolder(deny: Denials, n: nat, run: seq<Action>, s: State, m: Message, t: nat)
    requires Reaches(deny, Start(n), run, s) && s.accepted[m] == 1 && t < |s.slots| && s.slots[t] == Got(m)
    ensures forall u :: 0 <= u < |s.slots| && u != t ==> s.slots[u] != Got(m)
    ensures forall q :: 0 <= q < |s.queues| ==> m !in s.queues[q].messages
    ensures m !in s.taken && m !in s.freed
  {
    hide Reaches;
    EachMessageOnce(deny, n, run, s);
    assert s.accepted[m] == (Queued(s.queues) + Elsewhere(s))[m];
    assert Held(s.slots)[m] >= 1 by { HeldAt(s.slots, t, m); }
    forall u | 0 <= u < |s.slots| && u != t ensures s.slots[u] != Got(m) {
      HeldTwice(s.slots, t, u, m);
    }
    forall q | 0 <= q < |s.queues| ensures m !in s.queues[q].messages {
      QueuedAt(s.queues, q, m);
    }
  }

  lemma {:induction false} HeldAt(slots: seq<Slot>, t: nat, m: Message)
    requires t < |slots| && slots[t] == Got(m)
    ensures Held(slots)[m] >= 1
    decreases |slots|
  {
    if t < |slots| - 1 {
      HeldAt(slots[..|slots| - 1], t, m);
    }
  }

  lemma HeldTwice(slots: seq<Slot>, t: nat, u: nat, m: Message)
    requires t < |slots| && u < |slots| && t != u && slots[t] == Got(m)
    ensures slots[u] == Got(m) ==> Held(slots)[m] >= 2
  {
    hide Held;
    if slots[u] == Got(m) {
      var slots' := slots[u := NoSlot];
      HeldAt(slots', t, m);
      SlotUpdate(slots, u, NoSlot);
      assert (Held(slots') + InSlot(Got(m)))[m] == (Held(slots) + InSlot(NoSlot))[m];
    }
  }

  lemma {:induction false} QueuedAt(qs: seq<Queue>, q: nat, m: Message)
    requires q < |qs|
    ensures m in qs[q].messages ==> Queued(qs)[m] >= 1
    decreases |qs|
  {
    if q < |qs| - 1 {
      QueuedAt(qs[..|qs| - 1], q, m);
    } else {
      assert m in qs[q].messages ==> m in multiset(qs[q].messages);
    }
  }
}

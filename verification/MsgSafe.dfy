/** Every step of the message queue protocol keeps the invariant (msg.c), so it holds
    in every run. */
module MsgSafe {
  import opened Msg
  import opened MsgKeep
  import opened MsgRun

  // ----- sums -----

  lemma Exchange(a: multiset<Message>, b: multiset<Message>, c: multiset<Message>, d: multiset<Message>,
      e: multiset<Message>)
    requires a + b == c + d
    ensures (a + e) + b == (c + e) + d
  {
    forall x ensures ((a + e) + b)[x] == ((c + e) + d)[x] {
      assert (a + b)[x] == (c + d)[x];
    }
  }

  lemma {:induction false} SumUpdate(qs: seq<Queue>, i: nat, q: Queue)
    requires i < |qs|
    ensures SumBytes(qs[i := q]) == SumBytes(qs) - qs[i].cbytes + q.cbytes
    ensures SumNum(qs[i := q]) == SumNum(qs) - qs[i].qnum + q.qnum
    decreases |qs|
  {
    var n := |qs| - 1;
    if i == n {
      assert qs[i := q][..n] == qs[..n];
    } else {
      SumUpdate(qs[..n], i, q);
      assert qs[i := q][..n] == qs[..n][i := q];
    }
  }

  lemma {:induction false} QueuedUpdate(qs: seq<Queue>, i: nat, q: Queue)
    requires i < |qs|
    ensures Queued(qs[i := q]) + multiset(qs[i].messages) == Queued(qs) + multiset(q.messages)
    decreases |qs|
  {
    var n := |qs| - 1;
    var front, last := qs[..n], multiset(qs[n].messages);
    if i == n {
      assert qs[i := q][..n] == front;
      Exchange(last, multiset(q.messages), multiset(q.messages), last, Queued(front));
    } else {
      QueuedUpdate(front, i, q);
      assert qs[i := q][..n] == front[i := q];
      Exchange(Queued(front[i := q]), multiset(qs[i].messages), Queued(front), multiset(q.messages), last);
    }
  }

  lemma {:induction false} SlotUpdate(slots: seq<Slot>, t: nat, v: Slot)
    requires t < |slots|
    ensures Held(slots[t := v]) + InSlot(slots[t]) == Held(slots) + InSlot(v)
    decreases |slots|
  {
    hide InSlot;
    var n := |slots| - 1;
    var front, last := slots[..n], InSlot(slots[n]);
    if t == n {
      assert slots[t := v][..n] == front;
      Exchange(last, InSlot(v), InSlot(v), last, Held(front));
    } else {
      SlotUpdate(front, t, v);
      assert slots[t := v][..n] == front[t := v];
      Exchange(Held(front[t := v]), InSlot(slots[t]), Held(front), InSlot(v), last);
    }
  }

  // ----- writing slots -----

  ghost predicate Written(ws: seq<Write>, t: nat) {
    exists w :: w in ws && w.task == t
  }

  /** A slot holds what was written to it, or what it held before. */
  lemma {:induction false} WriteAllAt(slots: seq<Slot>, ws: seq<Write>, t: nat)
    requires t < |slots|
    ensures WriteAll(slots, ws)[t] == slots[t] || Write(t, WriteAll(slots, ws)[t]) in ws
    ensures !Written(ws, t) ==> WriteAll(slots, ws)[t] == slots[t]
    ensures Written(ws, t) ==> Write(t, WriteAll(slots, ws)[t]) in ws
  {
    if ws != [] {
      var front, w := ws[..|ws| - 1], ws[|ws| - 1];
      WriteAllAt(slots, front, t);
      assert ws == front + [w];
      assert Written(front, t) ==> Written(ws, t);
      assert w in ws;
      if Written(ws, t) && w.task != t {
        var v :| v in ws && v.task == t;
        assert v in front;
      }
    }
  }

  /** Writes that hand over no message, to slots that hold none. */
  ghost predicate Harmless(slots: seq<Slot>, ws: seq<Write>) {
    forall w :: w in ws ==> !w.v.Got? && (w.task < |slots| ==> !slots[w.task].Got?)
  }

  lemma SlotUpdateEmpty(slots: seq<Slot>, t: nat, v: Slot)
    requires t < |slots| && !slots[t].Got? && !v.Got?
    ensures Held(slots[t := v]) == Held(slots)
  {
    hide Held;
    SlotUpdate(slots, t, v);
    assert Held(slots) + multiset{} == Held(slots) && Held(slots[t := v]) + multiset{} == Held(slots[t := v]);
  }

  lemma {:induction false} HarmlessHeld(slots: seq<Slot>, ws: seq<Write>)
    requires Harmless(slots, ws)
    ensures Held(WriteAll(slots, ws)) == Held(slots)
  {
    if ws != [] {
      var front, w := ws[..|ws| - 1], ws[|ws| - 1];
      assert ws == front + [w] && w in ws;
      assert forall x :: x in front ==> x in ws;
      HarmlessHeld(slots, front);
      if w.task < |slots| {
        WriteAllAt(slots, front, w.task);
        SlotUpdateEmpty(WriteAll(slots, front), w.task, w.v);
      }
    }
  }

  lemma {:induction false} RefusalsWrite(ts: seq<nat>, err: Errno)
    ensures forall w :: w in Refusals(ts, err) <==> w.task in ts && w.v == Failed(err)
  {
    if ts != [] {
      RefusalsWrite(ts[1..], err);
    }
  }

  lemma {:induction false} ExpungedWrite(rs: seq<Receiver>, v: Slot)
    ensures forall w :: w in Expunged(rs, v) <==> OnList(rs, w.task) && w.v == v
  {
    if rs != [] {
      var front, r := rs[..|rs| - 1], rs[|rs| - 1];
      ExpungedWrite(front, v);
      assert rs == front + [r] && r in rs;
      assert forall t :: OnList(front, t) ==> OnList(rs, t);
      forall t | OnList(rs, t) ensures OnList(front, t) || t == r.task {
        var x :| x in rs && x.task == t;
        assert x in front || x == r;
      }
    }
  }

  // ----- the accounts -----

  ghost predicate Accounts(s: State) {
    Totals(s) && Conserved(s)
  }

  /** Moving messages between the places keeps the accounts. */
  lemma AccountsMove(s: State, s': State, q: nat)
    requires Accounts(s) && q < |s.queues| == |s'.queues| && s'.queues == s.queues[q := s'.queues[q]]
    requires s'.bytes - s.bytes == s'.queues[q].cbytes - s.queues[q].cbytes
    requires s'.hdrs - s.hdrs == s'.queues[q].qnum - s.queues[q].qnum
    requires s'.accepted + (multiset(s.queues[q].messages) + Elsewhere(s))
             == s.accepted + (multiset(s'.queues[q].messages) + Elsewhere(s'))
    ensures Accounts(s')
  {
    hide Elsewhere;
    SumUpdate(s.queues, q, s'.queues[q]);
    QueuedUpdate(s.queues, q, s'.queues[q]);
    Balance(s.accepted, Queued(s.queues), multiset(s.queues[q].messages), Elsewhere(s),
            s'.accepted, Queued(s'.queues), multiset(s'.queues[q].messages), Elsewhere(s'));
  }

  lemma Balance(acc: multiset<Message>, all: multiset<Message>, one: multiset<Message>, rest: multiset<Message>,
                acc': multiset<Message>, all': multiset<Message>, one': multiset<Message>, rest': multiset<Message>)
    requires acc == all + rest && all' + one == all + one' && acc' + (one + rest) == acc + (one' + rest')
    ensures acc' == all' + rest'
  {
    forall x ensures acc'[x] == (all' + rest')[x] {
      assert acc[x] == (all + rest)[x] && (all' + one)[x] == (all + one')[x];
      assert (acc' + (one + rest))[x] == (acc + (one' + rest'))[x];
    }
  }

  lemma SameHeld(s: State, s': State)
    requires Held(s'.slots) == Held(s.slots) && s'.taken == s.taken && s'.freed == s.freed
    ensures Elsewhere(s') == Elsewhere(s)
  {
  }

  /** A section that changes neither messages nor slots. */
  lemma AccountsStay(s: State, s': State, q: nat)
    requires Accounts(s) && q < |s.queues| == |s'.queues| && s'.queues == s.queues[q := s'.queues[q]]
    requires s'.queues[q].messages == s.queues[q].messages && s'.accepted == s.accepted
    requires s'.queues[q].cbytes == s.queues[q].cbytes && s'.queues[q].qnum == s.queues[q].qnum
    requires s'.bytes == s.bytes && s'.hdrs == s.hdrs
    requires Held(s'.slots) == Held(s.slots) && s'.taken == s.taken && s'.freed == s.freed
    ensures Accounts(s')
  {
    SameHeld(s, s');
    AccountsMove(s, s', q);
  }

  ghost predicate SlotsFree(slots: seq<Slot>, rs: seq<Receiver>) {
    forall r :: r in rs ==> r.task < |slots| && slots[r.task] == Pending
  }

  /** What an accepted message does to the slots. */
  lemma AcceptHeld(deny: Denials, q: Queue, m: Message, slots: seq<Slot>)
    requires SlotsFree(slots, q.receivers) && DistinctReceivers(q.receivers)
    ensures var e := Accept(deny, q, m);
            multiset(e.q.messages) + Held(WriteAll(slots, e.writes)) == multiset(q.messages) + Held(slots) + multiset{m}
  {
    hide Handoff, Held, WriteAll, Refusals;
    var e, o := Accept(deny, q, m), Handoff(deny, q.receivers, m);
    var ws := Refusals(o.refused, E2BIG);
    RefusedHeld(deny, q.receivers, m, slots);
    if o.taker == None {
      assert e.writes == ws;
    } else {
      HandoffSplits(deny, q.receivers, m);
      TakenHeld(deny, q.receivers, m, slots, o.taker.value);
    }
  }

  lemma RefusedHeld(deny: Denials, rs: seq<Receiver>, m: Message, slots: seq<Slot>)
    requires SlotsFree(slots, rs) && DistinctReceivers(rs)
    ensures Held(WriteAll(slots, Refusals(Handoff(deny, rs, m).refused, E2BIG))) == Held(slots)
  {
    hide Handoff, Held, WriteAll, Refusals, Accepts;
    var refused := Handoff(deny, rs, m).refused;
    HandoffSplits(deny, rs, m);
    RefusalsWrite(refused, E2BIG);
    forall w | w in Refusals(refused, E2BIG) ensures w.task < |slots| && !slots[w.task].Got? {
      assert OnList(rs, w.task);
    }
    HarmlessHeld(slots, Refusals(refused, E2BIG));
  }

  lemma TakenHeld(deny: Denials, rs: seq<Receiver>, m: Message, slots: seq<Slot>, t: nat)
    requires SlotsFree(slots, rs) && OnList(rs, t)
    ensures var ws := Refusals(Handoff(deny, rs, m).refused, E2BIG);
            Held(WriteAll(slots, ws + [Write(t, Got(m))])) == Held(WriteAll(slots, ws)) + multiset{m}
  {
    hide Handoff, Held, Refusals, Accepts;
    var refused := Handoff(deny, rs, m).refused;
    var ws := Refusals(refused, E2BIG);
    RefusalsWrite(refused, E2BIG);
    WriteAllAt(slots, ws, t);
    assert (ws + [Write(t, Got(m))])[..|ws|] == ws;
    SlotUpdateGot(WriteAll(slots, ws), t, m);
  }

  lemma SlotUpdateGot(slots: seq<Slot>, t: nat, m: Message)
    requires t < |slots| && !slots[t].Got?
    ensures Held(slots[t := Got(m)]) == Held(slots) + multiset{m}
  {
    hide Held;
    SlotUpdate(slots, t, Got(m));
    assert Held(slots[t := Got(m)]) + multiset{} == Held(slots[t := Got(m)]);
  }

  // ----- the accounts of each step -----

  ghost predicate ListsReady(s: State, q: nat)
    requires q < |s.queues|
  {
    s.queues[q].valid ==> SlotsFree(s.slots, s.queues[q].receivers) && DistinctReceivers(s.queues[q].receivers)
  }

  lemma SendAccounts(deny: Denials, s: State, t: nat, q: nat, m: Message, nowait: bool)
    requires t < |s.phases| && q < |s.queues| && Accounts(s) && ListsReady(s, q)
    ensures Accounts(SendRound(deny, s, t, q, m, nowait))
  {
    hide Queued, SumBytes, SumNum, Held, WriteAll, Handoff, Refusals;
    var s', e := SendRound(deny, s, t, q, m, nowait), SendEffect(deny, s.queues[q], m, t, nowait);
    if SendOutcomeOf(s.queues[q], m, nowait) == Sent {
      AcceptHeld(deny, s.queues[q], m, s.slots);
      OneMore(multiset(s.queues[q].messages), Held(s.slots), s.taken, s.freed,
              multiset(e.q.messages), Held(s'.slots), m, s.accepted);
      AccountsMove(s, s', q);
    } else {
      NoWrites(s.slots);
      AccountsStay(s, s', q);
    }
  }

  lemma OneMore(was: multiset<Message>, held: multiset<Message>, taken: multiset<Message>, freed: multiset<Message>,
                now: multiset<Message>, held': multiset<Message>, m: Message, acc: multiset<Message>)
    requires now + held' == was + held + multiset{m}
    ensures acc + multiset{m} + (was + (held + taken + freed)) == acc + (now + (held' + taken + freed))
  {
    forall x ensures (acc + multiset{m} + (was + (held + taken + freed)))[x] ==
        (acc + (now + (held' + taken + freed)))[x] {
      assert (now + held')[x] == (was + held + multiset{m})[x];
    }
  }

  lemma RecvAccounts(deny: Denials, s: State, t: nat, q: nat, w: Want)
    requires t < |s.phases| == |s.slots| && q < |s.queues| && Accounts(s) && s.slots[t] == NoSlot
    ensures Accounts(RecvRound(deny, s, t, q, w))
  {
    hide Queued, SumBytes, SumNum, Held, WriteAll, Chosen, Fitting, Stuck;
    var s' := RecvRound(deny, s, t, q, w);
    NoWrites(s.slots);
    match RecvOutcomeOf(deny, s.queues[q], t, w)
    case Received(m) => ReceivedAccounts(deny, s, t, q, w, m);
    case RecvSleeps =>
      SlotUpdateEmpty(s.slots, t, Pending);
      AccountsStay(s, s', q);
    case Copied(_) => AccountsStay(s, s', q);
    case RecvFails(_) => AccountsStay(s, s', q);
  }

  lemma ReceivedAccounts(deny: Denials, s: State, t: nat, q: nat, w: Want, m: Message)
    requires t < |s.phases| == |s.slots| && q < |s.queues| && Accounts(s)
    requires RecvOutcomeOf(deny, s.queues[q], t, w) == Received(m)
    ensures Accounts(RecvRound(deny, s, t, q, w))
  {
    hide Queued, SumBytes, SumNum, Held, WriteAll, Chosen, Fitting, Stuck;
    var s', e := RecvRound(deny, s, t, q, w), RecvEffect(deny, s.queues[q], t, w);
    NoWrites(s.slots);
    UnlinkedMessages(s.queues[q], Chosen(deny, t, s.queues[q].messages, w.mtype, w.mode));
    OneTaken(multiset(s.queues[q].messages), Held(s.slots), s.taken, s.freed, multiset(e.q.messages), m, s.accepted);
    AccountsMove(s, s', q);
  }

  lemma UnlinkedMessages(q: Queue, k: nat)
    requires k < |q.messages|
    ensures multiset(q.messages) == multiset(Unlinked(q, k).messages) + multiset{q.messages[k]}
  {
    assert q.messages == q.messages[..k] + [q.messages[k]] + q.messages[k + 1..];
  }

  lemma OneTaken(was: multiset<Message>, held: multiset<Message>, taken: multiset<Message>, freed: multiset<Message>,
                 now: multiset<Message>, m: Message, acc: multiset<Message>)
    requires was == now + multiset{m}
    ensures acc + (was + (held + taken + freed)) == acc + (now + (held + (taken + multiset{m}) + freed))
  {
  }

  lemma FinishAccounts(s: State, t: nat)
    requires t < |s.phases| == |s.slots| && Accounts(s)
    ensures Accounts(Finished(s, t))
  {
    hide Queued, SumBytes, SumNum, Held;
    var s' := Finished(s, t);
    SlotUpdate(s.slots, t, NoSlot);
    assert Elsewhere(s') == Elsewhere(s) by {
      SlotTaken(Held(s.slots), Held(s'.slots), InSlot(s.slots[t]), s.taken, s.freed);
      assert s'.taken == s.taken + InSlot(s.slots[t]);
    }
  }

  lemma SlotTaken(held: multiset<Message>, held': multiset<Message>, m: multiset<Message>, taken: multiset<Message>,
      freed: multiset<Message>)
    requires held' + m == held + multiset{}
    ensures held' + (taken + m) + freed == held + taken + freed
  {
    forall x ensures (held' + (taken + m) + freed)[x] == (held + taken + freed)[x] {
      assert (held' + m)[x] == (held + multiset{})[x];
    }
  }

  lemma ControlAccounts(deny: Denials, s: State, a: Action)
    requires InRange(s) && Enabled(s, a) && Accounts(s) && (a.IpcSet? || a.Rmid?) && ListsReady(s, a.q)
    ensures Accounts(Step(deny, s, a))
  {
    hide Queued, SumBytes, SumNum, Held, WriteAll, Fitting, Stuck, Expunged;
    var q := s.queues[a.q];
    var v := if a.IpcSet? then Pending else Failed(EIDRM);
    ExpungedWrite(q.receivers, v);
    HarmlessHeld(s.slots, Expunged(q.receivers, v));
    AccountsStay(s, Step(deny, s, a), a.q);
  }

  lemma DrainAccounts(deny: Denials, s: State, a: Action)
    requires InRange(s) && Enabled(s, a) && Accounts(s) && a.Drain? && Counted(s.queues[a.q])
    ensures Accounts(Step(deny, s, a))
  {
    hide Queued, SumBytes, SumNum, Held;
    var s', ms := Step(deny, s, a), multiset(s.queues[a.q].messages);
    NoWrites(s.slots);
    assert s'.queues[a.q].messages == [];
    AllFreed(s.accepted, ms, Held(s.slots), s.taken, s.freed);
    AccountsMove(s, s', a.q);
  }

  lemma AllFreed(acc: multiset<Message>, ms: multiset<Message>, held: multiset<Message>, taken: multiset<Message>,
      freed: multiset<Message>)
    ensures acc + (ms + (held + taken + freed)) == acc + (multiset([]) + (held + taken + (freed + ms)))
  {
  }

  lemma NewQueueAccounts(deny: Denials, s: State, a: Action)
    requires InRange(s) && Enabled(s, a) && Accounts(s) && a.NewQueue?
    ensures Accounts(Step(deny, s, a))
  {
    var s' := Step(deny, s, a);
    assert s'.queues[..|s.queues|] == s.queues;
    assert Queued(s'.queues) == Queued(s.queues);
  }
}

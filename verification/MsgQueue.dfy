/** A message queue that is updated in place (msg.c): the walks over its lists and the
    sections under its lock do what the functions of `Msg` say. */
module MsgQueue {
  import opened Msg
  import opened MsgRun

  /** What all queues share: the receivers' `r_msg` slots by task, the tasks handed to
      the wake queue, and the namespace's counters. */
  class Shared {
    const slots: array<Slot>
    var woken: set<nat>
    var bytes: int
    var hdrs: int

    constructor (tasks: nat)
      ensures fresh(slots) && slots.Length == tasks && woken == {} && bytes == 0 && hdrs == 0
      ensures forall t :: 0 <= t < tasks ==> slots[t] == NoSlot
    {
      slots := new Slot[tasks](_ => NoSlot);
      woken, bytes, hdrs := {}, 0, 0;
    }
  }

  /** The element after `x` on a list, if there is one. */
  function Next(ss: seq<Sender>, x: Sender): Option<Sender> {
    if |ss| < 2 then None
    else if ss[0] == x then Some(ss[1])
    else Next(ss[1..], x)
  }

  /** list_move_tail. */
  function MovedToTail(ss: seq<Sender>, x: Sender): seq<Sender> {
    WithoutSender(ss, x.task) + [x]
  }

  function HeadOf(ss: seq<Sender>): Option<Sender> {
    if ss == [] then None else Some(ss[0])
  }

  lemma {:induction false} NextOf(a: seq<Sender>, x: Sender, b: seq<Sender>)
    requires DistinctSenders(a + [x] + b)
    ensures Next(a + [x] + b, x) == HeadOf(b)
    ensures WithoutSender(a + [x] + b, x.task) == a + b
    decreases |a|
  {
    var ss := a + [x] + b;
    if a == [] {
      assert ss == [x] + b;
    } else {
      assert ss[0] == a[0] && ss[|a|] == x;
      assert ss[1..] == a[1..] + [x] + b;
      NextOf(a[1..], x, b);
    }
  }

  class LockedQueue {
    var valid: bool
    var messages: seq<Message>
    var receivers: seq<Receiver>
    var senders: seq<Sender>
    var cbytes: int
    var qnum: int
    var qbytes: int

    function Value(): Queue
      reads this
    {
      Queue(valid, messages, receivers, senders, cbytes, qnum, qbytes)
    }

    /** newque: an empty queue. */
    constructor (limit: nat)
      ensures Value() == Queue(true, [], [], [], 0, 0, limit)
    {
      valid, messages, receivers, senders := true, [], [], [];
      cbytes, qnum, qbytes := 0, 0, limit;
    }

    method FitsInQueue(size: nat) returns (fits: bool)
      ensures fits <==> Fits(Value(), size)
    {
      fits := size + cbytes <= qbytes && 1 + qnum <= qbytes;
    }

    /** Searches the messages.  The type bound only changes when a message is found. */
    method FindMsg(deny: Denials, task: nat, msgtyp: int, mode: Mode) returns (k: int, msgtyp': int)
      requires forall m :: m in messages ==> m.mtype >= 1
      ensures k == Chosen(deny, task, messages, msgtyp, mode)
      ensures k == -1 || mode != SearchLessEqual ==> msgtyp' == msgtyp
    {
      var found, count, i := -1, 0, 0;
      msgtyp' := msgtyp;
      while i < |messages|
        invariant 0 <= i <= |messages|
        invariant Searched(deny, task, messages, msgtyp, mode, i, found, count, msgtyp')
      {
        var m := messages[i];
        SearchStep(deny, task, messages, msgtyp, mode, i, found, count, msgtyp');
        if TestMsg(m, msgtyp', mode) && (m.id, task) !in deny {
          if mode == SearchLessEqual && m.mtype != 1 {
            msgtyp' := m.mtype - 1;
            found := i;
          } else if mode == SearchNumber {
            if msgtyp' == count {
              SearchEnds(deny, task, messages, msgtyp, mode, i + 1, i);
              return i, msgtyp';
            }
          } else {
            SearchEnds(deny, task, messages, msgtyp, mode, i + 1, i);
            return i, msgtyp';
          }
          count := count + 1;
        }
        i := i + 1;
      }
      k := found;
    }

    /** Wakes the senders that fit and moves the others to the tail; with `kill`, takes
        all senders off the list and wakes them. */
    method SsWakeup(w: Shared, kill: bool)
      requires DistinctSenders(senders)
      modifies this`senders, w`woken
      ensures !kill ==> Value() == WokenUp(old(Value())) && w.woken == old(w.woken) + Wakes(old(Value()))
      ensures kill ==> Value() == old(Value()).(senders := []) && w.woken == old(w.woken) + Tasks(old(senders))
    {
      if kill {
        UnlinkSenders(w);
      } else {
        WakeFitting(w);
      }
    }

    method UnlinkSenders(w: Shared)
      modifies this`senders, w`woken
      ensures Value() == old(Value()).(senders := []) && w.woken == old(w.woken) + Tasks(old(senders))
    {
      ghost var all := senders;
      while senders != []
        invariant Value() == old(Value()).(senders := senders)
        invariant w.woken + Tasks(senders) == old(w.woken) + Tasks(all)
        decreases |senders|
      {
        var x := senders[0];
        assert senders == [x] + senders[1..];
        assert Tasks(senders) == {x.task} + Tasks(senders[1..]);
        senders := senders[1..];
        w.woken := w.woken + {x.task};
      }
    }

    /** The walk stops at the first sender it has moved, when it meets it again. */
    method WakeFitting(w: Shared)
      requires DistinctSenders(senders)
      modifies this`senders, w`woken
      ensures Value() == WokenUp(old(Value())) && w.woken == old(w.woken) + Wakes(old(Value()))
    {
      hide Fitting, Stuck, Walked, Next, WithoutSender;
      ghost var q0, all := Value(), senders;
      ghost var n := 0;
      var stop: Option<nat> := None;
      var pos := HeadOf(senders);
      WalkStart(q0, all);
      while pos != None
        invariant 0 <= n <= |all| && Value() == q0.(senders := senders)
        invariant Walked(q0, all, n, senders, pos, stop) && w.woken == old(w.woken) + Tasks(Fitting(q0, all[..n]))
        decreases |all| - n, pos != None
      {
        var x := pos.value;
        var next := Next(senders, x);
        if stop == Some(x.task) {
          WalkStops(q0, all, n, senders, x, stop);
          break;
        }
        WalkStep(q0, all, n, senders, x, stop);
        var fits := FitsInQueue(x.size);
        if !fits {
          if stop == None {
            stop := Some(x.task);
          }
          senders := MovedToTail(senders, x);
        } else {
          w.woken := w.woken + {x.task};
        }
        pos := next;
        n := n + 1;
      }
      WalkEnds(q0, all, n, senders, pos, stop);
    }

    /** The state of the queue and of what it shares after a section with effect `e`. */
    twostate predicate Did(w: Shared, e: Effect)
      reads this, w, w.slots
    {
      && Value() == e.q && w.slots[..] == WriteAll(old(w.slots[..]), e.writes)
      && w.woken == old(w.woken) + e.wakes && w.bytes == old(w.bytes) + e.bytes && w.hdrs == old(w.hdrs) + e.hdrs
    }

    ghost predicate HasSlots(w: Shared)
      reads this, w
    {
      forall r :: r in receivers ==> r.task < w.slots.Length
    }

    /** Writes the result into every receiver's slot and wakes the receivers; they stay
        on the list. */
    method ExpungeAll(w: Shared, v: Slot)
      requires HasSlots(w)
      modifies w`woken, w.slots
      ensures w.slots[..] == WriteAll(old(w.slots[..]), Expunged(receivers, v))
      ensures w.woken == old(w.woken) + set r | r in receivers :: r.task
    {
      var i := 0;
      while i < |receivers|
        invariant 0 <= i <= |receivers|
        invariant w.slots[..] == WriteAll(old(w.slots[..]), Expunged(receivers[..i], v))
        invariant w.woken == old(w.woken) + set r | r in receivers[..i] :: r.task
      {
        var r := receivers[i];
        ExpungedNext(receivers, i, v);
        WriteNext(old(w.slots[..]), Expunged(receivers[..i], v), Write(r.task, v));
        w.slots[r.task] := v;
        w.woken := w.woken + {r.task};
        i := i + 1;
      }
      assert receivers[..i] == receivers;
    }

    /** Answers a receiver that has left the list. */
    method Answer(w: Shared, t: nat, v: Slot, ghost slots0: seq<Slot>, ghost ws: seq<Write>, ghost woken0: set<nat>,
        ghost ts: seq<nat>)
      requires t < w.slots.Length == |slots0| && w.slots[..] == WriteAll(slots0, ws) && w.woken == woken0 + Members(ts)
      modifies w`woken, w.slots
      ensures w.slots[..] == WriteAll(slots0, ws + [Write(t, v)]) && w.woken == woken0 + Members(ts + [t])
    {
      WriteNext(slots0, ws, Write(t, v));
      w.woken := w.woken + {t};
      w.slots[t] := v;
    }

    /** The walk over the receivers `all` has asked the first `n` of them. */
    ghost predicate Asked(w: Shared, deny: Denials, all: seq<Receiver>, m: Message, n: nat, kept: seq<Receiver>,
        refused: seq<nat>,
                          slots0: seq<Slot>, woken0: set<nat>)
      reads this, w, w.slots
    {
      && n <= |all| && receivers == kept + all[n..] && |slots0| == w.slots.Length
      && HasSlots(w) && Offered(deny, all, m, n, kept, refused)
      && w.slots[..] == WriteAll(slots0, Refusals(refused, E2BIG)) && w.woken == woken0 + Members(refused)
    }

    /** Asks the receiver at position `i`; it may leave the list. */
    method Ask(w: Shared, deny: Denials, m: Message, i: nat, ghost all: seq<Receiver>, ghost n: nat,
               ghost kept: seq<Receiver>, ghost refused: seq<nat>, ghost slots0: seq<Slot>, ghost woken0: set<nat>)
      returns (i': nat, taken: bool, ghost kept': seq<Receiver>, ghost refused': seq<nat>)
      requires Asked(w, deny, all, m, n, kept, refused, slots0, woken0) && n < |all| && i == |kept|
      modifies this`receivers, w`woken, w.slots
      ensures Value() == old(Value()).(receivers := receivers)
      ensures !taken ==> Asked(w, deny, all, m, n + 1, kept', refused', slots0, woken0) && i' == |kept'|
      ensures taken ==> var o := Handoff(deny, all, m);
                        && o.taker != None && receivers == o.left
                        && w.slots[..] == WriteAll(slots0, Refusals(o.refused, E2BIG) + Taking(o, m))
                        && w.woken == woken0 + Members(o.refused + TakerOf(o))
    {
      hide Handoff, WriteAll, Refusals, Offered, Members;
      var r := receivers[i];
      assert r == all[n] && r in receivers;
      OfferNext(deny, all, m, n, kept, refused);
      i', taken, kept', refused' := i, false, kept, refused;
      if TestMsg(m, r.mtype, r.mode) && (m.id, r.task) !in deny {
        receivers := receivers[..i] + receivers[i + 1..];
        assert receivers == kept + all[n + 1..];
        if r.maxsize < m.size {
          Answer(w, r.task, Failed(E2BIG), slots0, Refusals(refused, E2BIG), woken0, refused);
          RefusalsNext(refused, r.task, E2BIG);
          refused' := refused + [r.task];
        } else {
          Answer(w, r.task, Got(m), slots0, Refusals(refused, E2BIG), woken0, refused);
          taken := true;
        }
      } else {
        i', kept' := i + 1, kept + [r];
        assert receivers == kept' + all[n + 1..];
      }
    }

    /** Offers a message to the waiting receivers. */
    method PipelinedSend(w: Shared, deny: Denials, m: Message) returns (taken: bool)
      requires HasSlots(w)
      modifies this`receivers, w`woken, w.slots
      ensures var o := Handoff(deny, old(receivers), m);
              && taken == (o.taker != None)
              && Value() == old(Value()).(receivers := o.left)
              && w.slots[..] == WriteAll(old(w.slots[..]), Refusals(o.refused, E2BIG) + Taking(o, m))
              && w.woken == old(w.woken) + Members(o.refused + TakerOf(o))
    {
      hide Handoff, WriteAll, Refusals, Offered, Members;
      ghost var all, n, kept, refused := receivers, 0, [], [];
      ghost var slots0, woken0 := w.slots[..], w.woken;
      OfferStart(deny, all, m, slots0, woken0);
      var i := 0;
      while i < |receivers|
        invariant i == |kept| && Value() == old(Value()).(receivers := receivers)
        invariant Asked(w, deny, all, m, n, kept, refused, slots0, woken0)
        decreases |all| - n
      {
        i, taken, kept, refused := Ask(w, deny, m, i, all, n, kept, refused, slots0, woken0);
        if taken {
          return;
        }
        n := n + 1;
      }
      taken := false;
      OfferEnd(deny, all, m, n, kept, refused);
      assert Refusals(refused, E2BIG) + [] == Refusals(refused, E2BIG) && refused + [] == refused;
    }

    /** One round of do_msgsnd under the lock. */
    method SendSection(w: Shared, deny: Denials, task: nat, m: Message, nowait: bool) returns (o: SendOutcome)
      requires HasSlots(w)
      modifies this, w, w.slots
      ensures o == SendOutcomeOf(old(Value()), m, nowait)
      ensures Did(w, SendEffect(deny, old(Value()), m, task, nowait))
    {
      hide Accept;
      NoWrites(w.slots[..]);
      if !valid {
        return SendFails(EIDRM);
      }
      var fits := FitsInQueue(m.size);
      if !fits {
        if nowait {
          return SendFails(EAGAIN);
        }
        senders := senders + [Sender(task, m.size)];
        return SendSleeps;
      }
      Deliver(w, deny, m);
      return Sent;
    }

    /** Hands a message to a waiting receiver or puts it on the queue. */
    method Deliver(w: Shared, deny: Denials, m: Message)
      requires HasSlots(w)
      modifies this, w, w.slots
      ensures Did(w, Accept(deny, old(Value()), m))
    {
      hide Handoff, Refusals, Accept, WriteAll;
      ghost var q0 := Value();
      var taken := PipelinedSend(w, deny, m);
      if !taken {
        messages := messages + [m];
        cbytes := cbytes + m.size;
        qnum := qnum + 1;
        w.bytes := w.bytes + m.size;
        w.hdrs := w.hdrs + 1;
      }
      AcceptParts(deny, q0, m);
    }

    /** One round of do_msgrcv under the lock.  The receiver goes to sleep with the type
        bound that it came with. */
    method ReceiveSection(w: Shared, deny: Denials, task: nat, want: Want) returns (o: RecvOutcome)
      requires DistinctSenders(senders) && forall m :: m in messages ==> m.mtype >= 1
      modifies this, w, w.slots
      ensures o == RecvOutcomeOf(deny, old(Value()), task, want)
      ensures Did(w, RecvEffect(deny, old(Value()), task, want))
    {
      hide Chosen, Fitting, Stuck, Fits, WriteAll, Wakes, WokenUp, Unlinked;
      NoWrites(w.slots[..]);
      if !valid {
        return RecvFails(EIDRM);
      }
      var k, msgtyp := FindMsg(deny, task, want.mtype, want.mode);
      if k >= 0 {
        var m := messages[k];
        if want.bufsz < m.size && !want.noerror {
          return RecvFails(E2BIG);
        }
        if want.mode == SearchNumber {
          return Copied(m);
        }
        Unlink(w, k);
        return Received(m);
      }
      if want.nowait {
        return RecvFails(ENOMSG);
      }
      receivers := receivers + [Receiver(task, want.mode, msgtyp, if want.noerror then INT_MAX else want.bufsz)];
      return RecvSleeps;
    }

    /** Takes message `k` off the queue, which may make room for senders. */
    method Unlink(w: Shared, k: nat)
      requires DistinctSenders(senders) && k < |messages|
      modifies this, w
      ensures var q := Unlinked(old(Value()), k);
              Did(w, Effect(WokenUp(q), [], Wakes(q), 0 - old(messages[k].size) as int, -1))
    {
      hide Fitting, Stuck, Fits;
      NoWrites(w.slots[..]);
      var m := messages[k];
      messages := messages[..k] + messages[k + 1..];
      qnum := qnum - 1;
      cbytes := cbytes - m.size;
      w.bytes := w.bytes - m.size;
      w.hdrs := w.hdrs - 1;
      SsWakeup(w, false);
    }

    method IpcSet(w: Shared, limit: nat)
      requires HasSlots(w) && DistinctSenders(senders)
      modifies this, w, w.slots
      ensures Did(w, SetEffect(old(Value()), limit))
    {
      qbytes := limit;
      ExpungeAll(w, Pending);
      SsWakeup(w, false);
    }

    method Rmid(w: Shared)
      requires HasSlots(w) && DistinctSenders(senders)
      modifies this, w, w.slots
      ensures Did(w, RmidEffect(old(Value())))
    {
      ExpungeAll(w, Failed(EIDRM));
      SsWakeup(w, true);
      valid := false;
    }

    /** Frees the messages of a removed queue. */
    method Drain(w: Shared)
      modifies this, w
      ensures Did(w, Drained(old(Value())))
    {
      NoWrites(w.slots[..]);
      var i := 0;
      while i < |messages|
        invariant 0 <= i <= |messages| && w.hdrs == old(w.hdrs) - i
        invariant Value() == old(Value()) && w.bytes == old(w.bytes) && w.woken == old(w.woken)
      {
        w.hdrs := w.hdrs - 1;
        i := i + 1;
      }
      w.bytes := w.bytes - cbytes;
      messages, cbytes, qnum := [], 0, 0;
    }
  }

  lemma AcceptParts(deny: Denials, q: Queue, m: Message)
    ensures var e, o := Accept(deny, q, m), Handoff(deny, q.receivers, m);
            && e.writes == Refusals(o.refused, E2BIG) + Taking(o, m) && e.wakes == Members(o.refused + TakerOf(o))
            && if o.taker == None then
                 && e.q == q.(receivers := o.left, messages := q.messages + [m], cbytes := q.cbytes + m.size,
                      qnum := q.qnum + 1)
                 && e.bytes == m.size && e.hdrs == 1
               else e.q == q.(receivers := o.left) && e.bytes == 0 && e.hdrs == 0
  {
  }

  function Members(ts: seq<nat>): set<nat> {
    set t | t in ts
  }

  function TakerOf(o: Offer): seq<nat> {
    if o.taker == None then [] else [o.taker.value]
  }

  function Taking(o: Offer, m: Message): seq<Write> {
    if o.taker == None then [] else [Write(o.taker.value, Got(m))]
  }

  lemma WriteNext(slots: seq<Slot>, ws: seq<Write>, w: Write)
    requires w.task < |slots|
    ensures WriteAll(slots, ws + [w]) == WriteAll(slots, ws)[w.task := w.v]
  {
    assert (ws + [w])[..|ws|] == ws;
  }

  lemma ExpungedNext(rs: seq<Receiver>, i: nat, v: Slot)
    requires i < |rs|
    ensures Expunged(rs[..i + 1], v) == Expunged(rs[..i], v) + [Write(rs[i].task, v)]
    ensures (set r | r in rs[..i + 1] :: r.task) == (set r | r in rs[..i] :: r.task) + {rs[i].task}
  {
    assert rs[..i + 1] == rs[..i] + [rs[i]];
  }

  lemma {:induction false} RefusalsNext(ts: seq<nat>, t: nat, err: Errno)
    ensures Refusals(ts + [t], err) == Refusals(ts, err) + [Write(t, Failed(err))]
  {
    if ts != [] {
      RefusalsNext(ts[1..], t, err);
      assert (ts + [t])[1..] == ts[1..] + [t];
    }
  }

  /** The first `n` receivers have been asked: `kept` stay and `refused` are turned
      away; what is left to do gives the rest of the answer. */
  ghost predicate Offered(deny: Denials, all: seq<Receiver>, m: Message, n: nat, kept: seq<Receiver>, refused: seq<nat>)
    requires n <= |all|
  {
    var o, rest := Handoff(deny, all, m), Handoff(deny, all[n..], m);
    o == Offer(kept + rest.left, refused + rest.refused, rest.taker)
  }

  lemma OfferStart(deny: Denials, all: seq<Receiver>, m: Message, slots: seq<Slot>, woken: set<nat>)
    ensures Offered(deny, all, m, 0, [], []) && WriteAll(slots, Refusals([], E2BIG)) == slots
        && woken + Members([]) == woken
  {
    assert all[0..] == all;
    var o := Handoff(deny, all, m);
    assert [] + o.left == o.left && [] + o.refused == o.refused;
  }

  lemma OfferNext(deny: Denials, all: seq<Receiver>, m: Message, n: nat, kept: seq<Receiver>, refused: seq<nat>)
    requires n < |all| && Offered(deny, all, m, n, kept, refused)
    ensures var r := all[n];
            if !Accepts(deny, r, m) then Offered(deny, all, m, n + 1, kept + [r], refused)
            else if r.maxsize < m.size then Offered(deny, all, m, n + 1, kept, refused + [r.task])
            else Handoff(deny, all, m) == Offer(kept + all[n + 1..], refused, Some(r.task))
  {
    var r, rest := all[n], Handoff(deny, all[n + 1..], m);
    assert all[n..][1..] == all[n + 1..];
    assert kept + ([r] + rest.left) == kept + [r] + rest.left;
    assert refused + ([r.task] + rest.refused) == refused + [r.task] + rest.refused;
  }

  lemma OfferEnd(deny: Denials, all: seq<Receiver>, m: Message, n: nat, kept: seq<Receiver>, refused: seq<nat>)
    requires n == |all| && Offered(deny, all, m, n, kept, refused)
    ensures Handoff(deny, all, m) == Offer(kept, refused, None)
  {
  }

  // ----- find_msg -----

  /** What the search knows after the first `i` messages. */
  ghost predicate Searched(deny: Denials, task: nat, ms: seq<Message>, t0: int, mode: Mode, i: nat, found: int,
      count: int, t: int)
    requires i <= |ms|
  {
    && (mode == SearchNumber ==>
          found == -1 == Numbered(deny, task, ms, t0, mode, i) && t == t0
              && count == Matching(deny, task, ms, t0, mode, i))
    && (mode != SearchNumber ==> found == Best(deny, task, ms, t0, mode, i))
    && (mode != SearchNumber && mode != SearchLessEqual ==> found == -1)
    && t == if found == -1 then t0 else ms[found].mtype - 1
  }

  /** The test against the lowered bound finds what is better than the best so far. */
  lemma SearchStep(deny: Denials, task: nat, ms: seq<Message>, t0: int, mode: Mode, i: nat, found: int, count: int,
      t: int)
    requires i < |ms| && Searched(deny, task, ms, t0, mode, i, found, count, t)
    ensures mode != SearchNumber ==>
              Best(deny, task, ms, t0, mode, i + 1) == if TestMsg(ms[i], t, mode) && (ms[i].id, task) !in deny then i
                  else found
  {
    BestIsBest(deny, task, ms, t0, mode, i);
  }

  /** Nothing that comes later is better than what the search returns at once. */
  lemma {:induction false} SearchEnds(deny: Denials, task: nat, ms: seq<Message>, t0: int, mode: Mode, n: nat, k: nat)
    requires k < n <= |ms| && forall m :: m in ms ==> m.mtype >= 1
    requires mode == SearchNumber ==> Numbered(deny, task, ms, t0, mode, n) == k
    requires mode != SearchNumber ==> Best(deny, task, ms, t0, mode, n) == k
    requires mode == SearchLessEqual ==> ms[k].mtype == 1
    ensures Chosen(deny, task, ms, t0, mode) == k
    decreases |ms| - n
  {
    if n < |ms| {
      assert ms[n] in ms;
      SearchEnds(deny, task, ms, t0, mode, n + 1, k);
    }
  }

  // ----- ss_wakeup -----

  /** The first `n` of the senders `all` have been visited: those that fit are in
      front, then come those not visited yet, and those that do not fit are at the
      tail; `stop` is the first of these. */
  ghost predicate Walked(q: Queue, all: seq<Sender>, n: nat, ss: seq<Sender>, pos: Option<Sender>, stop: Option<nat>)
    requires n <= |all|
  {
    var a, b := Fitting(q, all[..n]), Stuck(q, all[..n]);
    && DistinctSenders(all) && DistinctSenders(ss) && ss == a + all[n..] + b
    && stop == (if b == [] then None else Some(b[0].task))
    && (pos == HeadOf(all[n..] + b) || (pos == None && n == |all|))
  }

  lemma WalkStart(q: Queue, all: seq<Sender>)
    requires DistinctSenders(all)
    ensures Walked(q, all, 0, all, HeadOf(all), None) && Tasks(Fitting(q, all[..0])) == {}
  {
    assert all[..0] == [] && all[0..] == all && [] + all + [] == all && all + [] == all;
  }

  lemma WalkStops(q: Queue, all: seq<Sender>, n: nat, ss: seq<Sender>, x: Sender, stop: Option<nat>)
    requires n <= |all| && Walked(q, all, n, ss, Some(x), stop) && stop == Some(x.task)
    ensures n == |all|
  {
    PlacesApart(Fitting(q, all[..n]), all[n..], Stuck(q, all[..n]), ss);
  }

  lemma PlacesApart(a: seq<Sender>, mid: seq<Sender>, b: seq<Sender>, ss: seq<Sender>)
    requires ss == a + mid + b && DistinctSenders(ss)
    ensures mid != [] && b != [] ==> mid[0].task != b[0].task
  {
    if mid != [] && b != [] {
      assert ss[|a|] == mid[0] && ss[|a + mid|] == b[0];
    }
  }

  lemma Visit(q: Queue, all: seq<Sender>, n: nat)
    requires n < |all|
    ensures Fitting(q, all[..n + 1]) == Fitting(q, all[..n]) + if Fits(q, all[n].size) then [all[n]] else []
    ensures Stuck(q, all[..n + 1]) == Stuck(q, all[..n]) + if Fits(q, all[n].size) then [] else [all[n]]
  {
    assert all[..n + 1][..n] == all[..n];
  }

  lemma WalkStep(q: Queue, all: seq<Sender>, n: nat, ss: seq<Sender>, x: Sender, stop: Option<nat>)
    requires n <= |all| && Walked(q, all, n, ss, Some(x), stop) && stop != Some(x.task)
    ensures n < |all| && x == all[n]
    ensures Fits(q, x.size) ==> Walked(q, all, n + 1, ss, Next(ss, x), stop)
    ensures !Fits(q, x.size) ==>
              Walked(q, all, n + 1, MovedToTail(ss, x), Next(ss, x), if stop == None then Some(x.task) else stop)
    ensures Tasks(Fitting(q, all[..n + 1])) == Tasks(Fitting(q, all[..n])) + if Fits(q, x.size) then {x.task} else {}
  {
    hide Fitting, Stuck, Fits;
    var a, b := Fitting(q, all[..n]), Stuck(q, all[..n]);
    assert n < |all|;
    var rest := all[n + 1..] + b;
    assert all[n..] == [x] + all[n + 1..];
    assert ss == a + [x] + rest;
    NextOf(a, x, rest);
    Visit(q, all, n);
    if Fits(q, x.size) {
      assert ss == (a + [x]) + all[n + 1..] + b;
    } else {
      TailDistinct(a, x, rest);
      assert MovedToTail(ss, x) == a + all[n + 1..] + (b + [x]);
      assert all[n + 1..] + (b + [x]) == rest + [x];
    }
  }

  lemma TailDistinct(a: seq<Sender>, x: Sender, rest: seq<Sender>)
    requires DistinctSenders(a + [x] + rest)
    ensures DistinctSenders(a + rest + [x])
  {
    var s, s' := a + [x] + rest, a + rest + [x];
    forall i, j | 0 <= i < j < |s'| ensures s'[i].task != s'[j].task {
      var i' := if i < |a| then i else i + 1;
      var j' := if j < |a| then j else if j < |a + rest| then j + 1 else |a|;
      assert s'[i] == s[i'] && s'[j] == s[j'];
    }
  }

  lemma WalkEnds(q: Queue, all: seq<Sender>, n: nat, ss: seq<Sender>, pos: Option<Sender>, stop: Option<nat>)
    requires n <= |all| && Walked(q, all, n, ss, pos, stop) && (pos == None || n == |all|)
    ensures n == |all| && ss == Fitting(q, all) + Stuck(q, all) && all[..n] == all
  {
    assert all[..n] == all;
  }
}

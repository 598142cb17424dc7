/** What every section under a message queue's lock keeps (msg.c): the counters, that
    no waiting receiver matches a queued message, and that no message of a sleeping
    sender that has not been woken fits. */
module MsgKeep {
  import opened Msg

  function Bytes(ms: seq<Message>): nat {
    if ms == [] then 0 else Bytes(ms[..|ms| - 1]) + ms[|ms| - 1].size
  }

  lemma {:induction false} BytesConcat(a: seq<Message>, b: seq<Message>)
    ensures Bytes(a + b) == Bytes(a) + Bytes(b)
  {
    if b == [] {
      assert a + b == a;
    } else {
      BytesConcat(a, b[..|b| - 1]);
      assert (a + b)[..|a + b| - 1] == a + b[..|b| - 1];
    }
  }

  ghost predicate Counted(q: Queue) {
    q.qnum == |q.messages| && q.cbytes == Bytes(q.messages) && forall m :: m in q.messages ==> m.mtype >= 1
  }

  /** No receiver on the list matches a queued message. */
  ghost predicate Unmatched(deny: Denials, q: Queue) {
    forall r, m :: r in q.receivers && m in q.messages ==> !Accepts(deny, r, m)
  }

  /** No message of a sender on the list fits, unless the sender has been woken. */
  ghost predicate Blocked(q: Queue, woken: set<nat>) {
    forall x :: x in q.senders && x.task !in woken ==> !Fits(q, x.size)
  }

  ghost predicate Sound(deny: Denials, q: Queue, woken: set<nat>) {
    Counted(q) && Unmatched(deny, q) && Blocked(q, woken)
  }

  lemma WokenUpKeeps(deny: Denials, q: Queue, woken: set<nat>)
    requires Counted(q) && Unmatched(deny, q)
    ensures Sound(deny, WokenUp(q), woken + Wakes(q))
  {
    FittingFits(q, q.senders);
    forall x | x in WokenUp(q).senders && x.task !in woken + Wakes(q) ensures !Fits(WokenUp(q), x.size) {
      assert x in Fitting(q, q.senders) ==> x.task in Tasks(Fitting(q, q.senders));
    }
  }

  lemma AcceptKeeps(deny: Denials, q: Queue, m: Message, woken: set<nat>)
    requires Sound(deny, q, woken) && m.mtype >= 1
    ensures var e := Accept(deny, q, m); Sound(deny, e.q, woken + e.wakes)
  {
    HandoffLeft(deny, q.receivers, m);
    BytesConcat(q.messages, [m]);
    assert Bytes([m]) == m.size;
  }

  /** Messages are only added when they fit, and a receiver only sleeps when nothing
      matches; so whatever a section of do_msgsnd does, the queue stays sound.  A task
      that goes to sleep is not counted as woken any more. */
  lemma SendKeeps(deny: Denials, q: Queue, m: Message, task: nat, nowait: bool, woken: set<nat>)
    requires Sound(deny, q, woken) && m.mtype >= 1 && forall x :: x in q.senders ==> x.task != task
    ensures var e := SendEffect(deny, q, m, task, nowait); Sound(deny, e.q, (woken + e.wakes) - {task})
  {
    match SendOutcomeOf(q, m, nowait)
    case Sent =>
      AcceptKeeps(deny, q, m, woken);
    case SendSleeps =>
      assert forall x :: x in q.senders + [Sender(task, m.size)] ==> x in q.senders || x == Sender(task, m.size);
    case SendFails(_) =>
  }

  lemma UnlinkedKeeps(deny: Denials, q: Queue, k: nat)
    requires Counted(q) && Unmatched(deny, q) && k < |q.messages|
    ensures Counted(Unlinked(q, k)) && Unmatched(deny, Unlinked(q, k))
  {
    var a, m, b := q.messages[..k], q.messages[k], q.messages[k + 1..];
    assert q.messages == a + ([m] + b);
    BytesConcat(a, [m] + b);
    BytesConcat([m], b);
    BytesConcat(a, b);
    assert Bytes([m]) == m.size;
    assert forall x :: x in a + b ==> x in q.messages;
  }

  lemma NothingMatches(deny: Denials, q: Queue, task: nat, w: Want)
    requires RecvOutcomeOf(deny, q, task, w) == RecvSleeps && w.mode != SearchNumber
    ensures forall m :: m in q.messages ==> !Matches(deny, task, m, w.mtype, w.mode)
  {
    BestIsBest(deny, task, q.messages, w.mtype, w.mode, |q.messages|);
  }

  lemma RecvKeeps(deny: Denials, q: Queue, task: nat, w: Want, woken: set<nat>)
    requires Sound(deny, q, woken) && (w.mode == SearchNumber ==> w.nowait) && forall x :: x in q.senders ==>
        x.task != task
    ensures var e := RecvEffect(deny, q, task, w); Sound(deny, e.q, (woken + e.wakes) - {task})
  {
    match RecvOutcomeOf(deny, q, task, w)
    case Received(m) =>
      var k := Chosen(deny, task, q.messages, w.mtype, w.mode);
      var q' := Unlinked(q, k);
      UnlinkedKeeps(deny, q, k);
      WokenUpKeeps(deny, q', woken);
      FittingFits(q', q'.senders);
    case RecvSleeps =>
      var r := Receiver(task, w.mode, w.mtype, if w.noerror then INT_MAX else w.bufsz);
      NothingMatches(deny, q, task, w);
      assert forall x :: x in q.receivers + [r] ==> x in q.receivers || x == r;
    case Copied(_) =>
    case RecvFails(_) =>
  }

  lemma SetKeeps(deny: Denials, q: Queue, qbytes: nat, woken: set<nat>)
    requires Sound(deny, q, woken)
    ensures var e := SetEffect(q, qbytes); Sound(deny, e.q, woken + e.wakes)
  {
    WokenUpKeeps(deny, q.(qbytes := qbytes), woken);
  }

  /** A larger set of woken tasks, or one that has lost only tasks that do not wait
      here, keeps a queue sound. */
  lemma SoundStays(deny: Denials, q: Queue, woken: set<nat>, woken': set<nat>)
    requires Sound(deny, q, woken) && forall x :: x in q.senders && x.task in woken ==> x.task in woken'
    ensures Sound(deny, q, woken')
  {
  }

  lemma FewerSenders(deny: Denials, q: Queue, ss: seq<Sender>, woken: set<nat>)
    requires Sound(deny, q, woken) && forall x :: x in ss ==> x in q.senders
    ensures Sound(deny, q.(senders := ss), woken)
  {
  }

  lemma FewerReceivers(deny: Denials, q: Queue, rs: seq<Receiver>, woken: set<nat>)
    requires Sound(deny, q, woken) && forall x :: x in rs ==> x in q.receivers
    ensures Sound(deny, q.(receivers := rs), woken)
  {
  }
}

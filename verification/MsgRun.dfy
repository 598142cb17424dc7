/** Runs of the message queue protocol (msg.c).  A state holds all queues of a
    namespace and all tasks; every section under a queue's lock is one step, and so
    is the lockless look at `r_msg` after a receiver has slept. */
module MsgRun {
  import opened Msg
  import opened MsgKeep

  /** Where a task is: outside the calls, asleep in msgsnd with its message, asleep in
      msgrcv (`peeked` once it has seen -EAGAIN without the lock), or about to search
      the queue again. */
  datatype Phase = Idle | Sending(q: nat, m: Message) | Waiting(q: nat, w: Want, peeked: bool) | Retrying(q: nat,
      w: Want)

  datatype State = State(queues: seq<Queue>, slots: seq<Slot>, phases: seq<Phase>, woken: set<nat>,
                         bytes: int, hdrs: int,
                         accepted: multiset<Message>, taken: multiset<Message>, freed: multiset<Message>)

  datatype Action =
    | NewQueue(qbytes: nat)
    | Send(t: nat, q: nat, m: Message, nowait: bool)
    | SendAgain(t: nat, signal: bool)
    | Receive(t: nat, q: nat, w: Want)
    | ReceiveAgain(t: nat)
    | Peek(t: nat)
    | Recheck(t: nat, signal: bool)
    | IpcSet(q: nat, qbytes: nat)
    | Rmid(q: nat)
    | Drain(q: nat)

  ghost predicate Enabled(s: State, a: Action) {
    match a
    case NewQueue(_) => true
    case Send(t, q, m, _) => t < |s.phases| && s.phases[t] == Idle && q < |s.queues| && m.mtype >= 1
    case SendAgain(t, _) => t < |s.phases| && s.phases[t].Sending?
    case Receive(t, q, w) => t < |s.phases| && s.phases[t] == Idle && q < |s.queues|
        && (w.mode == SearchNumber ==> w.nowait)
    case ReceiveAgain(t) => t < |s.phases| && s.phases[t].Retrying?
    case Peek(t) => t < |s.phases| && s.phases[t].Waiting? && !s.phases[t].peeked
    case Recheck(t, _) => t < |s.phases| && s.phases[t].Waiting? && s.phases[t].peeked
    case IpcSet(q, _) => q < |s.queues| && s.queues[q].valid
    case Rmid(q) => q < |s.queues| && s.queues[q].valid
    case Drain(q) => q < |s.queues| && !s.queues[q].valid
  }

  function WriteAll(slots: seq<Slot>, ws: seq<Write>): (r: seq<Slot>)
    ensures |r| == |slots|
  {
    if ws == [] then slots
    else
      var before, w := WriteAll(slots, ws[..|ws| - 1]), ws[|ws| - 1];
      if w.task < |slots| then before[w.task := w.v] else before
  }

  lemma NoWrites(slots: seq<Slot>)
    ensures WriteAll(slots, []) == slots
  {
  }

  /** The state after a section on queue `q` with effect `e`. */
  function Applied(s: State, q: nat, e: Effect): State
    requires q < |s.queues|
  {
    s.(queues := s.queues[q := e.q], slots := WriteAll(s.slots, e.writes), woken := s.woken + e.wakes,
       bytes := s.bytes + e.bytes, hdrs := s.hdrs + e.hdrs)
  }

  function WithoutSender(ss: seq<Sender>, t: nat): seq<Sender> {
    if ss == [] then []
    else if ss[0].task == t then ss[1..]
    else [ss[0]] + WithoutSender(ss[1..], t)
  }

  function WithoutReceiver(rs: seq<Receiver>, t: nat): seq<Receiver> {
    if rs == [] then []
    else if rs[0].task == t then rs[1..]
    else [rs[0]] + WithoutReceiver(rs[1..], t)
  }

  /** One round of do_msgsnd by task `t` on queue `q`. */
  function SendRound(deny: Denials, s: State, t: nat, q: nat, m: Message, nowait: bool): State
    requires t < |s.phases| && q < |s.queues|
  {
    var s' := Applied(s, q, SendEffect(deny, s.queues[q], m, t, nowait));
    match SendOutcomeOf(s.queues[q], m, nowait)
    case Sent => s'.(phases := s.phases[t := Idle], accepted := s.accepted + multiset{m})
    case SendSleeps => s'.(phases := s.phases[t := Sending(q, m)], woken := s'.woken - {t})
    case SendFails(_) => s'.(phases := s.phases[t := Idle])
  }

  /** A sleeping sender runs again, because it was woken or has a signal pending. */
  function SendResumed(deny: Denials, s: State, t: nat, signal: bool): State
    requires t < |s.phases| && s.phases[t].Sending? && s.phases[t].q < |s.queues|
  {
    var q, m := s.phases[t].q, s.phases[t].m;
    if !s.queues[q].valid then s.(phases := s.phases[t := Idle])
    else
      var s' := s.(queues := s.queues[q := s.queues[q].(senders := WithoutSender(s.queues[q].senders, t))]);
      if signal then s'.(phases := s.phases[t := Idle]) else SendRound(deny, s', t, q, m, false)
  }

  /** One round of do_msgrcv by task `t` on queue `q`. */
  function RecvRound(deny: Denials, s: State, t: nat, q: nat, w: Want): State
    requires t < |s.phases| && |s.slots| == |s.phases| && q < |s.queues|
  {
    var s' := Applied(s, q, RecvEffect(deny, s.queues[q], t, w));
    match RecvOutcomeOf(deny, s.queues[q], t, w)
    case Received(m) => s'.(phases := s.phases[t := Idle], taken := s.taken + multiset{m})
    case RecvSleeps => s'.(phases := s.phases[t := Waiting(q, w, false)], slots := s.slots[t := Pending],
        woken := s'.woken - {t})
    case Copied(_) => s'.(phases := s.phases[t := Idle])
    case RecvFails(_) => s'.(phases := s.phases[t := Idle])
  }

  /** A receiver that finds its slot answered returns with what is in it. */
  function Finished(s: State, t: nat): State
    requires t < |s.phases| && |s.slots| == |s.phases|
  {
    var s' := s.(phases := s.phases[t := Idle], slots := s.slots[t := NoSlot]);
    match s.slots[t]
    case Got(m) => s'.(taken := s.taken + multiset{m})
    case _ => s'
  }

  function Peeked(s: State, t: nat): State
    requires t < |s.phases| && |s.slots| == |s.phases| && s.phases[t].Waiting?
  {
    if s.slots[t] == Pending then s.(phases := s.phases[t := s.phases[t].(peeked := true)]) else Finished(s, t)
  }

  function Rechecked(s: State, t: nat, signal: bool): State
    requires t < |s.phases| && |s.slots| == |s.phases| && s.phases[t].Waiting? && s.phases[t].q < |s.queues|
  {
    if s.slots[t] != Pending then Finished(s, t)
    else
      var q, w := s.phases[t].q, s.phases[t].w;
      s.(queues := s.queues[q := s.queues[q].(receivers := WithoutReceiver(s.queues[q].receivers, t))],
         slots := s.slots[t := NoSlot],
         phases := s.phases[t := if signal then Idle else Retrying(q, w)])
  }

  function Step(deny: Denials, s: State, a: Action): State
    requires InRange(s) && Enabled(s, a)
  {
    match a
    case NewQueue(qbytes) => s.(queues := s.queues + [Queue(true, [], [], [], 0, 0, qbytes)])
    case Send(t, q, m, nowait) => SendRound(deny, s, t, q, m, nowait)
    case SendAgain(t, signal) => SendResumed(deny, s, t, signal)
    case Receive(t, q, w) => RecvRound(deny, s, t, q, w)
    case ReceiveAgain(t) => RecvRound(deny, s, t, s.phases[t].q, s.phases[t].w)
    case Peek(t) => Peeked(s, t)
    case Recheck(t, signal) => Rechecked(s, t, signal)
    case IpcSet(q, qbytes) => Applied(s, q, SetEffect(s.queues[q], qbytes))
    case Rmid(q) => Applied(s, q, RmidEffect(s.queues[q]))
    case Drain(q) => Applied(s, q, Drained(s.queues[q])).(freed := s.freed + multiset(s.queues[q].messages))
  }

  // ----- the invariant -----

  ghost predicate InRange(s: State) {
    && |s.slots| == |s.phases|
    && forall t :: 0 <= t < |s.phases| ==> !s.phases[t].Idle? ==> s.phases[t].q < |s.queues|
  }

  function ReceiverOf(t: nat, w: Want): Receiver {
    Receiver(t, w.mode, w.mtype, if w.noerror then INT_MAX else w.bufsz)
  }

  /** Where a task is agrees with its slot and with the lists it is on. */
  ghost predicate TaskOk(s: State, t: nat)
    requires InRange(s) && t < |s.phases|
  {
    match s.phases[t]
    case Idle => s.slots[t] == NoSlot
    case Retrying(q, w) => s.slots[t] == NoSlot && w.mode != SearchNumber
    case Sending(q, m) => s.slots[t] == NoSlot && m.mtype >= 1
        && (s.queues[q].valid ==> Sender(t, m.size) in s.queues[q].senders)
    case Waiting(q, w, _) =>
      && s.slots[t] != NoSlot && w.mode != SearchNumber
      && (s.slots[t] == Pending ==> s.queues[q].valid && ReceiverOf(t, w) in s.queues[q].receivers)
  }

  ghost predicate Listed(s: State, q: nat, r: Receiver) {
    && r.task < |s.phases| && r.task < |s.slots|
    && s.phases[r.task].Waiting? && s.phases[r.task].q == q && r == ReceiverOf(r.task, s.phases[r.task].w)
    && s.slots[r.task] == Pending
  }

  ghost predicate ListedSender(s: State, q: nat, x: Sender) {
    && x.task < |s.phases| && s.phases[x.task].Sending? && s.phases[x.task].q == q && x.size == s.phases[x.task].m.size
  }

  /** The lists of a valid queue hold exactly tasks that wait there, each once. */
  ghost predicate ListsOk(s: State, q: nat)
    requires q < |s.queues|
  {
    s.queues[q].valid ==>
      && (forall r :: r in s.queues[q].receivers ==> Listed(s, q, r))
      && (forall x :: x in s.queues[q].senders ==> ListedSender(s, q, x))
      && DistinctReceivers(s.queues[q].receivers) && DistinctSenders(s.queues[q].senders)
  }

  ghost predicate QueueOk(deny: Denials, s: State, q: nat)
    requires q < |s.queues|
  {
    Counted(s.queues[q]) && (s.queues[q].valid ==> Sound(deny, s.queues[q], s.woken))
  }

  ghost predicate Structure(deny: Denials, s: State) {
    && InRange(s)
    && (forall t :: 0 <= t < |s.phases| ==> TaskOk(s, t))
    && (forall q :: 0 <= q < |s.queues| ==> ListsOk(s, q))
    && (forall q :: 0 <= q < |s.queues| ==> QueueOk(deny, s, q))
  }

  function SumBytes(qs: seq<Queue>): int {
    if qs == [] then 0 else SumBytes(qs[..|qs| - 1]) + qs[|qs| - 1].cbytes
  }

  function SumNum(qs: seq<Queue>): int {
    if qs == [] then 0 else SumNum(qs[..|qs| - 1]) + qs[|qs| - 1].qnum
  }

  function Queued(qs: seq<Queue>): multiset<Message> {
    if qs == [] then multiset{} else Queued(qs[..|qs| - 1]) + multiset(qs[|qs| - 1].messages)
  }

  function InSlot(v: Slot): multiset<Message> {
    if v.Got? then multiset{v.m} else multiset{}
  }

  function Held(slots: seq<Slot>): multiset<Message> {
    if slots == [] then multiset{} else Held(slots[..|slots| - 1]) + InSlot(slots[|slots| - 1])
  }

  /** The namespace's counters are the sums over its queues. */
  ghost predicate Totals(s: State) {
    s.bytes == SumBytes(s.queues) && s.hdrs == SumNum(s.queues)
  }

  /** Every accepted message is in one place: on a queue, in one receiver's slot,
      taken by a reader, or freed when its queue was removed. */
  ghost predicate Conserved(s: State) {
    s.accepted == Queued(s.queues) + Elsewhere(s)
  }

  function Elsewhere(s: State): multiset<Message> {
    Held(s.slots) + s.taken + s.freed
  }

  ghost predicate Inv(deny: Denials, s: State) {
    Structure(deny, s) && Totals(s) && Conserved(s)
  }

  /** No queue, no message, and `n` tasks outside the calls. */
  function Start(n: nat): State {
    State([], seq(n, _ => NoSlot), seq(n, _ => Idle), {}, 0, 0, multiset{}, multiset{}, multiset{})
  }
}

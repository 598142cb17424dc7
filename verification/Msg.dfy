/** System V message queues as values (msg.c): what each section of code that runs
    under a queue's lock does, and what the list walks inside it amount to. */
module Msg {

  datatype Option<T> = None | Some(value: T)

  datatype Errno = EIDRM | EAGAIN | E2BIG | ENOMSG

  /** A message; `id` tells messages with equal type and size apart. */
  datatype Message = Message(id: nat, mtype: nat, size: nat)

  datatype Mode = SearchAny | SearchEqual | SearchNotEqual | SearchLessEqual | SearchNumber

  /** The `r_msg` slot of a receiver, while it has one: not answered yet (-EAGAIN),
      answered with a message, or with an error. */
  datatype Slot = NoSlot | Pending | Got(m: Message) | Failed(err: Errno)

  datatype Receiver = Receiver(task: nat, mode: Mode, mtype: int, maxsize: int)

  datatype Sender = Sender(task: nat, size: nat)

  datatype Queue = Queue(valid: bool, messages: seq<Message>, receivers: seq<Receiver>, senders: seq<Sender>,
                         cbytes: int, qnum: int, qbytes: int)

  const INT_MAX: int := 0x7fff_ffff
  const LONG_MAX: int := 0x7fff_ffff_ffff_ffff
  const LONG_MIN: int := -0x8000_0000_0000_0000

  /** Which tasks the security hook keeps from receiving which messages. */
  type Denials = set<(nat, nat)>

  predicate Fits(q: Queue, size: nat) {
    size + q.cbytes <= q.qbytes && 1 + q.qnum <= q.qbytes
  }

  predicate TestMsg(m: Message, mtype: int, mode: Mode) {
    match mode
    case SearchAny => true
    case SearchNumber => true
    case SearchLessEqual => m.mtype <= mtype
    case SearchEqual => m.mtype == mtype
    case SearchNotEqual => m.mtype != mtype
  }

  /** A message that a task may take when it searches for `mtype` in `mode`. */
  predicate Matches(deny: Denials, task: nat, m: Message, mtype: int, mode: Mode) {
    TestMsg(m, mtype, mode) && (m.id, task) !in deny
  }

  predicate Accepts(deny: Denials, r: Receiver, m: Message) {
    Matches(deny, r.task, m, r.mtype, r.mode)
  }

  /** How the type argument of msgrcv selects messages. */
  function ConvertMode(msgtyp: int, copy: bool, except: bool): (r: (Mode, int))
    requires LONG_MIN <= msgtyp <= LONG_MAX
    ensures LONG_MIN <= r.1 <= LONG_MAX
    ensures r.0 == SearchNumber <==> copy
    ensures copy ==> r.1 == msgtyp
    ensures !copy ==> forall m: Message :: TestMsg(m, r.1, r.0) <==>
              if msgtyp == 0 then true
              else if msgtyp < 0 then m.mtype <= -msgtyp && m.mtype <= LONG_MAX
              else if except then m.mtype != msgtyp else m.mtype == msgtyp
  {
    if copy then (SearchNumber, msgtyp)
    else if msgtyp == 0 then (SearchAny, msgtyp)
    else if msgtyp < 0 then (SearchLessEqual, if msgtyp == LONG_MIN then LONG_MAX else -msgtyp)
    else if except then (SearchNotEqual, msgtyp)
    else (SearchEqual, msgtyp)
  }

  // ----- find_msg -----

  /** The best message among the first `n`: the first that matches or, for types up
      to a bound, the first of the least matching type.  -1 if there is none. */
  function Best(deny: Denials, task: nat, ms: seq<Message>, mtype: int, mode: Mode, n: nat): (k: int)
    requires n <= |ms|
    ensures -1 <= k < n
    decreases n
  {
    if n == 0 then -1
    else
      var b, m := Best(deny, task, ms, mtype, mode, n - 1), ms[n - 1];
      if !Matches(deny, task, m, mtype, mode) then b
      else if b == -1 || (mode == SearchLessEqual && m.mtype < ms[b].mtype) then n - 1
      else b
  }

  /** How many of the first `n` messages match. */
  function Matching(deny: Denials, task: nat, ms: seq<Message>, mtype: int, mode: Mode, n: nat): nat
    requires n <= |ms|
  {
    if n == 0 then 0
    else Matching(deny, task, ms, mtype, mode, n - 1) + if Matches(deny, task, ms[n - 1], mtype, mode) then 1 else 0
  }

  /** The message of which exactly `mtype` matching ones come before, -1 if none. */
  function Numbered(deny: Denials, task: nat, ms: seq<Message>, mtype: int, mode: Mode, n: nat): (k: int)
    requires n <= |ms|
    ensures -1 <= k < n
    decreases n
  {
    if n == 0 then -1
    else
      var k := Numbered(deny, task, ms, mtype, mode, n - 1);
      if k >= 0 then k
      else if Matches(deny, task, ms[n - 1], mtype, mode) && Matching(deny, task, ms, mtype, mode, n - 1) == mtype
          then n - 1
      else -1
  }

  function Chosen(deny: Denials, task: nat, ms: seq<Message>, mtype: int, mode: Mode): (k: int)
    ensures -1 <= k < |ms|
  {
    if mode == SearchNumber then Numbered(deny, task, ms, mtype, mode, |ms|)
        else Best(deny, task, ms, mtype, mode, |ms|)
  }

  /** The chosen message matches; earlier ones of the same mode do not or, for types
      up to a bound, have a greater type, and no later one has a smaller type. */
  lemma {:induction false} BestIsBest(deny: Denials, task: nat, ms: seq<Message>, mtype: int, mode: Mode, n: nat)
    requires n <= |ms|
    ensures var k := Best(deny, task, ms, mtype, mode, n);
            && (k == -1 <==> forall i :: 0 <= i < n ==> !Matches(deny, task, ms[i], mtype, mode))
            && (k >= 0 ==>
                  && Matches(deny, task, ms[k], mtype, mode)
                  && (forall i :: 0 <= i < k && Matches(deny, task, ms[i], mtype, mode) ==>
                        mode == SearchLessEqual && ms[k].mtype < ms[i].mtype)
                  && (mode == SearchLessEqual ==>
                        forall i :: 0 <= i < n && Matches(deny, task, ms[i], mtype, mode) ==>
                            ms[k].mtype <= ms[i].mtype))
    decreases n
  {
    if n > 0 {
      BestIsBest(deny, task, ms, mtype, mode, n - 1);
    }
  }

  lemma {:induction false} NumberedCounts(deny: Denials, task: nat, ms: seq<Message>, mtype: int, mode: Mode, n: nat)
    requires n <= |ms|
    ensures var k := Numbered(deny, task, ms, mtype, mode, n);
            && (k >= 0 ==> Matches(deny, task, ms[k], mtype, mode) && Matching(deny, task, ms, mtype, mode, k) == mtype)
            && (k == -1 <==> !(0 <= mtype < Matching(deny, task, ms, mtype, mode, n)))
    decreases n
  {
    if n > 0 {
      NumberedCounts(deny, task, ms, mtype, mode, n - 1);
    }
  }

  // ----- ss_wakeup -----

  /** The senders whose message fits now, and those whose message does not, each in
      the order of the list. */
  function Fitting(q: Queue, ss: seq<Sender>): seq<Sender> {
    if ss == [] then []
    else Fitting(q, ss[..|ss| - 1]) + if Fits(q, ss[|ss| - 1].size) then [ss[|ss| - 1]] else []
  }

  function Stuck(q: Queue, ss: seq<Sender>): seq<Sender> {
    if ss == [] then []
    else Stuck(q, ss[..|ss| - 1]) + if Fits(q, ss[|ss| - 1].size) then [] else [ss[|ss| - 1]]
  }

  function Tasks(ss: seq<Sender>): set<nat> {
    set s | s in ss :: s.task
  }

  lemma FittingNext(q: Queue, ss: seq<Sender>, x: Sender)
    ensures Fitting(q, ss + [x]) == if Fits(q, x.size) then Fitting(q, ss) + [x] else Fitting(q, ss)
    ensures Stuck(q, ss + [x]) == if Fits(q, x.size) then Stuck(q, ss) else Stuck(q, ss) + [x]
  {
    hide Fits;
    assert (ss + [x])[..|ss|] == ss;
  }

  lemma MemberNext(ss: seq<Sender>, x: Sender, s: Sender)
    ensures s in ss + [x] <==> s in ss || s == x
  {
  }

  lemma Appended(ss: seq<Sender>, x: Sender)
    ensures multiset(ss + [x]) == multiset(ss) + multiset{x}
  {
  }

  /** If `ss` is divided into `a` and `b`, one more sender at the end of either is one more at the end of `ss`. */
  lemma DividedNext(ss: seq<Sender>, a: seq<Sender>, b: seq<Sender>, x: Sender)
    requires multiset(ss) == multiset(a) + multiset(b)
    ensures multiset(ss + [x]) == multiset(a + [x]) + multiset(b) == multiset(a) + multiset(b + [x])
  {
    var m, n, y := multiset(a), multiset(b), multiset{x};
    Appended(ss, x);
    Appended(a, x);
    Appended(b, x);
    assert (m + n) + y == (m + y) + n && (m + n) + y == m + (n + y);
  }

  lemma {:induction false} FittingMember(q: Queue, ss: seq<Sender>, s: Sender)
    ensures s in Fitting(q, ss) <==> s in ss && Fits(q, s.size)
    ensures s in Stuck(q, ss) <==> s in ss && !Fits(q, s.size)
  {
    hide Fits;
    if ss != [] {
      hide Fitting, Stuck;
      var front, last := ss[..|ss| - 1], ss[|ss| - 1];
      FittingMember(q, front, s);
      FittingNext(q, front, last);
      MemberNext(front, last, s);
      MemberNext(if Fits(q, last.size) then Fitting(q, front) else Stuck(q, front), last, s);
      assert ss == front + [last];
    }
  }

  ghost predicate Divided(q: Queue, ss: seq<Sender>) {
    multiset(ss) == multiset(Fitting(q, ss)) + multiset(Stuck(q, ss))
  }

  lemma DividedOne(q: Queue, ss: seq<Sender>, x: Sender)
    requires Divided(q, ss)
    ensures Divided(q, ss + [x])
  {
    hide Fits, Fitting, Stuck;
    FittingNext(q, ss, x);
    DividedNext(ss, Fitting(q, ss), Stuck(q, ss), x);
  }

  lemma {:induction false} FittingAll(q: Queue, ss: seq<Sender>)
    ensures Divided(q, ss)
  {
    if ss != [] {
      hide Divided;
      FittingAll(q, ss[..|ss| - 1]);
      DividedOne(q, ss[..|ss| - 1], ss[|ss| - 1]);
      assert ss == ss[..|ss| - 1] + [ss[|ss| - 1]];
    }
  }

  lemma FittingFits(q: Queue, ss: seq<Sender>)
    ensures forall s :: s in Fitting(q, ss) <==> s in ss && Fits(q, s.size)
    ensures forall s :: s in Stuck(q, ss) <==> s in ss && !Fits(q, s.size)
    ensures multiset(ss) == multiset(Fitting(q, ss)) + multiset(Stuck(q, ss))
  {
    hide Fits, Fitting, Stuck;
    forall s ensures s in Fitting(q, ss) <==> s in ss && Fits(q, s.size)
             ensures s in Stuck(q, ss) <==> s in ss && !Fits(q, s.size)
    {
      FittingMember(q, ss, s);
    }
    FittingAll(q, ss);
  }

  lemma AddedDistinct(ss: seq<Sender>, x: Sender)
    requires DistinctSenders(ss) && forall y :: y in ss ==> y.task != x.task
    ensures DistinctSenders(ss + [x])
  {
  }

  lemma {:induction false} FittingDistinct(q: Queue, ss: seq<Sender>)
    requires DistinctSenders(ss)
    ensures DistinctSenders(Fitting(q, ss)) && DistinctSenders(Stuck(q, ss))
  {
    if ss != [] {
      var front, last := ss[..|ss| - 1], ss[|ss| - 1];
      FittingDistinct(q, front);
      FittingFits(q, front);
      assert forall x :: x in front ==> x.task != last.task;
      assert Fitting(q, front) + [] == Fitting(q, front) && Stuck(q, front) + [] == Stuck(q, front);
      hide DistinctSenders;
      AddedDistinct(if Fits(q, last.size) then Fitting(q, front) else Stuck(q, front), last);
    }
  }

  lemma WokenDistinct(q: Queue, ss: seq<Sender>)
    requires DistinctSenders(ss)
    ensures DistinctSenders(Fitting(q, ss) + Stuck(q, ss))
  {
    var a, b := Fitting(q, ss), Stuck(q, ss);
    FittingDistinct(q, ss);
    FittingFits(q, ss);
    forall i, j | 0 <= i < |a| && 0 <= j < |b| ensures a[i].task != b[j].task {
      assert a[i] in a && b[j] in b;
      SameSender(ss, a[i], b[j]);
    }
  }

  lemma SameSender(ss: seq<Sender>, x: Sender, y: Sender)
    requires DistinctSenders(ss) && x in ss && y in ss
    ensures x.task == y.task ==> x == y
  {
    var i :| 0 <= i < |ss| && ss[i] == x;
    var j :| 0 <= j < |ss| && ss[j] == y;
  }

  /** The queue after the senders that fit have been woken. */
  function WokenUp(q: Queue): Queue {
    q.(senders := Fitting(q, q.senders) + Stuck(q, q.senders))
  }

  function Wakes(q: Queue): set<nat> {
    Tasks(Fitting(q, q.senders))
  }

  // ----- pipelined_send -----

  /** The receivers that stay on the list, those that are turned away because the
      message is too big for them, and the one that takes the message. */
  datatype Offer = Offer(left: seq<Receiver>, refused: seq<nat>, taker: Option<nat>)

  function Handoff(deny: Denials, rs: seq<Receiver>, m: Message): Offer {
    if rs == [] then Offer([], [], None)
    else
      var r := rs[0];
      if !Accepts(deny, r, m) then
        var o := Handoff(deny, rs[1..], m);
        o.(left := [r] + o.left)
      else if r.maxsize < m.size then
        var o := Handoff(deny, rs[1..], m);
        o.(refused := [r.task] + o.refused)
      else Offer(rs[1..], [], Some(r.task))
  }

  /** If nobody takes the message, no receiver that stays accepts it. */
  lemma {:induction false} HandoffLeft(deny: Denials, rs: seq<Receiver>, m: Message)
    ensures var o := Handoff(deny, rs, m);
            && (o.taker == None ==> forall r :: r in o.left ==> !Accepts(deny, r, m))
            && forall r :: r in o.left ==> r in rs
  {
    if rs != [] {
      HandoffLeft(deny, rs[1..], m);
    }
  }

  ghost predicate DistinctReceivers(rs: seq<Receiver>) {
    forall i, j :: 0 <= i < j < |rs| ==> rs[i].task != rs[j].task
  }

  ghost predicate DistinctSenders(ss: seq<Sender>) {
    forall i, j :: 0 <= i < j < |ss| ==> ss[i].task != ss[j].task
  }

  ghost predicate OnList(rs: seq<Receiver>, t: nat) {
    exists r :: r in rs && r.task == t
  }

  lemma RestOnList(rs: seq<Receiver>, t: nat)
    requires rs != [] && DistinctReceivers(rs)
    ensures OnList(rs, rs[0].task) && (OnList(rs[1..], t) ==> OnList(rs, t) && t != rs[0].task)
  {
    assert rs[0] in rs;
    if OnList(rs[1..], t) {
      var i :| 0 <= i < |rs[1..]| && rs[1..][i].task == t;
      assert rs[i + 1] in rs && rs[i + 1].task == t;
    }
  }

  /** Whoever is refused or takes the message was on the list, and no one is both. */
  lemma {:induction false} HandoffNamed(deny: Denials, rs: seq<Receiver>, m: Message)
    requires DistinctReceivers(rs)
    ensures var o := Handoff(deny, rs, m);
            && (forall t :: t in o.refused ==> OnList(rs, t) && o.taker != Some(t))
            && (o.taker != None ==> OnList(rs, o.taker.value))
  {
    hide Accepts, OnList;
    if rs != [] {
      var rest := rs[1..];
      HandoffNamed(deny, rest, m);
      forall t ensures OnList(rs, rs[0].task) && (OnList(rest, t) ==> OnList(rs, t) && t != rs[0].task) {
        RestOnList(rs, t);
      }
    }
  }

  /** Whoever stays is neither refused nor takes the message. */
  lemma {:induction false} HandoffStays(deny: Denials, rs: seq<Receiver>, m: Message)
    requires DistinctReceivers(rs)
    ensures var o := Handoff(deny, rs, m);
            DistinctReceivers(o.left) && forall r :: r in o.left ==> r.task !in o.refused && o.taker != Some(r.task)
  {
    hide Accepts, OnList;
    if rs != [] {
      var rest := rs[1..];
      HandoffStays(deny, rest, m);
      HandoffLeft(deny, rest, m);
      HandoffNamed(deny, rest, m);
      assert forall r :: r in rest ==> r.task != rs[0].task;
      forall t ensures OnList(rest, t) ==> t != rs[0].task {
        RestOnList(rs, t);
      }
    }
  }

  /** Nobody is forgotten. */
  lemma {:induction false} HandoffCovers(deny: Denials, rs: seq<Receiver>, m: Message, r: Receiver)
    requires r in rs
    ensures var o := Handoff(deny, rs, m); r in o.left || r.task in o.refused || o.taker == Some(r.task)
  {
    hide Accepts;
    if r != rs[0] {
      HandoffCovers(deny, rs[1..], m, r);
    }
  }

  /** Every receiver stays on the list, or is refused, or takes the message, and only
      one of these. */
  lemma HandoffSplits(deny: Denials, rs: seq<Receiver>, m: Message)
    requires DistinctReceivers(rs)
    ensures var o := Handoff(deny, rs, m);
            && DistinctReceivers(o.left)
            && (forall r :: r in rs ==> r in o.left || r.task in o.refused || o.taker == Some(r.task))
            && (forall r :: r in o.left ==> r.task !in o.refused && o.taker != Some(r.task))
            && (forall t :: t in o.refused ==> OnList(rs, t) && o.taker != Some(t))
            && (o.taker != None ==> OnList(rs, o.taker.value))
  {
    hide Handoff, OnList, DistinctReceivers;
    HandoffStays(deny, rs, m);
    HandoffNamed(deny, rs, m);
    forall r | r in rs
      ensures var o := Handoff(deny, rs, m); r in o.left || r.task in o.refused || o.taker == Some(r.task)
    {
      HandoffCovers(deny, rs, m, r);
    }
  }

  // ----- the sections under the queue's lock -----

  datatype Write = Write(task: nat, v: Slot)

  /** What a section does: the queue it leaves, the `r_msg` slots it writes in order,
      the tasks it wakes, and what it adds to the namespace's counters. */
  datatype Effect = Effect(q: Queue, writes: seq<Write>, wakes: set<nat>, bytes: int, hdrs: int)

  function Nothing(q: Queue): Effect {
    Effect(q, [], {}, 0, 0)
  }

  function Refusals(ts: seq<nat>, err: Errno): seq<Write> {
    if ts == [] then [] else [Write(ts[0], Failed(err))] + Refusals(ts[1..], err)
  }

  /** A message is accepted: handed to a receiver or queued. */
  function Accept(deny: Denials, q: Queue, m: Message): Effect {
    var o := Handoff(deny, q.receivers, m);
    var refused := set t | t in o.refused;
    match o.taker
    case None =>
      Effect(q.(receivers := o.left, messages := q.messages + [m], cbytes := q.cbytes + m.size, qnum := q.qnum + 1),
             Refusals(o.refused, E2BIG), refused, m.size, 1)
    case Some(t) =>
      Effect(q.(receivers := o.left), Refusals(o.refused, E2BIG) + [Write(t, Got(m))], refused + {t}, 0, 0)
  }

  datatype SendOutcome = Sent | SendSleeps | SendFails(err: Errno)

  /** One round of the loop of do_msgsnd. */
  function SendOutcomeOf(q: Queue, m: Message, nowait: bool): SendOutcome {
    if !q.valid then SendFails(EIDRM)
    else if Fits(q, m.size) then Sent
    else if nowait then SendFails(EAGAIN)
    else SendSleeps
  }

  function SendEffect(deny: Denials, q: Queue, m: Message, task: nat, nowait: bool): Effect {
    match SendOutcomeOf(q, m, nowait)
    case Sent => Accept(deny, q, m)
    case SendSleeps => Nothing(q.(senders := q.senders + [Sender(task, m.size)]))
    case SendFails(_) => Nothing(q)
  }

  /** What a receiver asks for, after ConvertMode. */
  datatype Want = Want(mode: Mode, mtype: int, bufsz: nat, noerror: bool, nowait: bool)

  datatype RecvOutcome = Received(m: Message) | Copied(m: Message) | RecvSleeps | RecvFails(err: Errno)

  /** One round of the loop of do_msgrcv, up to the point where it may sleep. */
  function RecvOutcomeOf(deny: Denials, q: Queue, task: nat, w: Want): RecvOutcome {
    if !q.valid then RecvFails(EIDRM)
    else
      var k := Chosen(deny, task, q.messages, w.mtype, w.mode);
      if k >= 0 then
        var m := q.messages[k];
        if w.bufsz < m.size && !w.noerror then RecvFails(E2BIG)
        else if w.mode == SearchNumber then Copied(m)
        else Received(m)
      else if w.nowait then RecvFails(ENOMSG)
      else RecvSleeps
  }

  function RecvEffect(deny: Denials, q: Queue, task: nat, w: Want): Effect {
    match RecvOutcomeOf(deny, q, task, w)
    case Received(m) =>
      var k := Chosen(deny, task, q.messages, w.mtype, w.mode);
      var q' := if k >= 0 then Unlinked(q, k) else q;
      Effect(WokenUp(q'), [], Wakes(q'), 0 - m.size as int, -1)
    case RecvSleeps =>
      Nothing(q.(receivers := q.receivers + [Receiver(task, w.mode, w.mtype, if w.noerror then INT_MAX else w.bufsz)]))
    case Copied(_) => Nothing(q)
    case RecvFails(_) => Nothing(q)
  }

  function Unlinked(q: Queue, k: nat): Queue
    requires k < |q.messages|
  {
    q.(messages := q.messages[..k] + q.messages[k + 1..], qnum := q.qnum - 1, cbytes := q.cbytes - q.messages[k].size)
  }

  /** What expunge_all writes. */
  function Expunged(rs: seq<Receiver>, v: Slot): seq<Write> {
    if rs == [] then [] else Expunged(rs[..|rs| - 1], v) + [Write(rs[|rs| - 1].task, v)]
  }

  /** IPC_SET: receivers are sent back to look again, senders that fit are woken. */
  function SetEffect(q: Queue, qbytes: nat): Effect {
    var q' := q.(qbytes := qbytes);
    Effect(WokenUp(q'), Expunged(q.receivers, Pending), (set r | r in q.receivers :: r.task) + Wakes(q'), 0, 0)
  }

  /** IPC_RMID, up to the point where the lock is dropped. */
  function RmidEffect(q: Queue): Effect {
    Effect(q.(valid := false, senders := []), Expunged(q.receivers, Failed(EIDRM)),
           (set r | r in q.receivers :: r.task) + Tasks(q.senders), 0, 0)
  }

  /** The rest of IPC_RMID: the messages are freed. */
  function Drained(q: Queue): Effect {
    Effect(q.(messages := [], cbytes := 0, qnum := 0), [], {}, -q.cbytes, 0 - |q.messages|)
  }
}

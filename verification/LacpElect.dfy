/** The choice of the active aggregator: counting over lists of ports, the lexicographic
    order of the selection test, and what an election leaves behind. */
module LacpElect {
  import opened LacpList

  datatype Policy = Stable | Bandwidth | Count | Prio

  ghost predicate Within(ports: seq<Port>, s: seq<nat>) {
    forall k :: 0 <= k < |s| ==> s[k] < |ports|
  }

  function ActivePorts(ports: seq<Port>, s: seq<nat>): nat
    requires forall k :: 0 <= k < |s| ==> s[k] < |ports|
  {
    if s == [] then 0 else (if ports[s[0]].enabled then 1 else 0) + ActivePorts(ports, s[1..])
  }

  function Priority(ports: seq<Port>, s: seq<nat>): nat
    requires forall k :: 0 <= k < |s| ==> s[k] < |ports|
  {
    if s == [] then 0 else (if ports[s[0]].enabled then ports[s[0]].prio else 0) + Priority(ports, s[1..])
  }

  predicate DeviceUp(ports: seq<Port>, s: seq<nat>)
    requires forall k :: 0 <= k < |s| ==> s[k] < |ports|
  {
    exists k :: 0 <= k < |s| && ports[s[k]].up
  }

  function TotalSpeed(ports: seq<Port>, s: seq<nat>): nat
    requires forall k :: 0 <= k < |s| ==> s[k] < |ports|
  {
    if ActivePorts(ports, s) == 0 then 0 else ActivePorts(ports, s) * ports[s[0]].speed
  }

  lemma ActiveNonEmpty(ports: seq<Port>, s: seq<nat>)
    requires Within(ports, s) && (ActivePorts(ports, s) > 0 || DeviceUp(ports, s))
    ensures s != []
  {
  }

  // ----- the order of the selection test -----

  ghost predicate Less(x: seq<nat>, y: seq<nat>)
    requires |x| == |y|
  {
    x != [] && (x[0] < y[0] || (x[0] == y[0] && Less(x[1..], y[1..])))
  }

  lemma {:induction false} LessIrreflexive(x: seq<nat>)
    ensures !Less(x, x)
  {
    if x != [] {
      LessIrreflexive(x[1..]);
    }
  }

  /** What is not above `y` is not above anything that `y` is not above. */
  lemma {:induction false} LessNegative(x: seq<nat>, y: seq<nat>, z: seq<nat>)
    requires |x| == |y| == |z| && !Less(x, y) && !Less(y, z)
    ensures !Less(x, z)
  {
    if x != [] && x[0] == z[0] {
      LessNegative(x[1..], y[1..], z[1..]);
    }
  }

  lemma {:induction false} LessTransitive(x: seq<nat>, y: seq<nat>, z: seq<nat>)
    requires |x| == |y| == |z| && Less(x, y) && Less(y, z)
    ensures Less(x, z)
  {
    if x[0] == z[0] {
      LessTransitive(x[1..], y[1..], z[1..]);
    }
  }

  lemma {:induction false} LessTotal(x: seq<nat>, y: seq<nat>)
    requires |x| == |y| && x != y
    ensures Less(x, y) || Less(y, x)
  {
    if x[0] == y[0] {
      assert x == [x[0]] + x[1..] && y == [y[0]] + y[1..];
      LessTotal(x[1..], y[1..]);
    }
  }

  predicate Partnered(agg: Agg) {
    agg.params.system != 0
  }

  ghost predicate Whole(b: Bond, a: nat) {
    a < |b.aggs| && a < |b.lists| && Within(b.ports, b.lists[a])
  }

  /** What the selection test looks at, most important first. */
  ghost function Rank(ports: seq<Port>, agg: Agg, s: seq<nat>, policy: Policy): (r: seq<nat>)
    requires Within(ports, s)
    ensures |r| == 5
  {
    [if agg.individual then 0 else 1,
     if Partnered(agg) then 1 else 0,
     if policy.Prio? then Priority(ports, s) else 0,
     if policy.Prio? || policy.Count? then ActivePorts(ports, s) else 0,
     TotalSpeed(ports, s)]
  }

  ghost function Key(b: Bond, policy: Policy, a: nat): (r: seq<nat>)
    requires Whole(b, a)
    ensures |r| == 5
  {
    Rank(b.ports, b.aggs[a], b.lists[a], policy)
  }

  /** Aggregator `x` is strictly better than `y`. */
  ghost predicate Beats(b: Bond, policy: Policy, x: nat, y: nat) {
    Whole(b, x) && Whole(b, y) && Less(Key(b, policy, y), Key(b, policy, x))
  }

  lemma LessFive(k: seq<nat>, l: seq<nat>)
    requires |k| == |l| == 5
    ensures Less(k, l) <==>
      if k[0] != l[0] then k[0] < l[0] else if k[1] != l[1] then k[1] < l[1] else if k[2] != l[2] then k[2] < l[2]
      else if k[3] != l[3] then k[3] < l[3] else k[4] < l[4]
  {
    LessUnfold(k, l);
    LessUnfold(k[1..], l[1..]);
    LessUnfold(k[2..], l[2..]);
    LessUnfold(k[3..], l[3..]);
    LessUnfold(k[4..], l[4..]);
    assert !Less(k[5..], l[5..]);
  }

  lemma LessUnfold(k: seq<nat>, l: seq<nat>)
    requires |k| == |l| > 0
    ensures Less(k, l) <==> k[0] < l[0] || (k[0] == l[0] && Less(k[1..], l[1..]))
    ensures forall j :: 0 <= j && j + 1 <= |k| ==> k[1..][j..] == k[j + 1..] && l[1..][j..] == l[j + 1..]
  {
  }

  // ----- the election -----

  /** An aggregator that may be chosen: it has enabled ports and a device that is up. */
  ghost predicate Usable(b: Bond, a: nat) {
    Whole(b, a) && ActivePorts(b.ports, b.lists[a]) > 0 && DeviceUp(b.ports, b.lists[a])
  }

  /** The aggregator that was active, or NONE. */
  ghost predicate WasActive(b: Bond, prev: int) {
    if prev == NONE then forall a :: a in b.slaves && a < |b.aggs| ==> !b.aggs[a].active
    else prev >= 0 && prev in b.slaves && prev < |b.aggs| && b.aggs[prev].active
  }

  /** The former active aggregator starts as the best one when a device of it is up. */
  ghost predicate Stands(b: Bond, prev: int) {
    prev >= 0 && Whole(b, prev) && DeviceUp(b.ports, b.lists[prev])
  }

  /** No usable aggregator among the first `n` slaves beats `best`. */
  ghost predicate Unbeaten(b: Bond, policy: Policy, best: nat, n: nat) {
    forall j :: 0 <= j < n && j < |b.slaves| && Usable(b, b.slaves[j]) ==> !Beats(b, policy, b.slaves[j], best)
  }

  /** Aggregator `best`, that of slave `m`, was taken for being strictly better than all before it. */
  ghost predicate Rose(b: Bond, policy: Policy, prev: int, best: nat, m: nat) {
    && m < |b.slaves| && b.slaves[m] == best && Usable(b, best)
    && (Stands(b, prev) ==> Beats(b, policy, best, prev))
    && forall j :: 0 <= j < m && Usable(b, b.slaves[j]) ==> Beats(b, policy, best, b.slaves[j])
  }

  /** `best` is the best aggregator among the former active one and the first `n` slaves; the
      former active one wins ties, and then the earliest. */
  ghost predicate Leads(b: Bond, policy: Policy, prev: int, best: int, n: nat) {
    if best == NONE then
      !Stands(b, prev) && forall j :: 0 <= j < n && j < |b.slaves| ==> !Usable(b, b.slaves[j])
    else
      && best >= 0 && Unbeaten(b, policy, best, n)
      && ((Stands(b, prev) && best == prev) || exists m :: 0 <= m < n && Rose(b, policy, prev, best, m))
  }

  lemma BeatsTransitive(b: Bond, policy: Policy, x: nat, y: nat, z: nat)
    requires Beats(b, policy, x, y) && Beats(b, policy, y, z)
    ensures Beats(b, policy, x, z)
  {
    hide Key, Less;
    LessTransitive(Key(b, policy, z), Key(b, policy, y), Key(b, policy, x));
  }

  lemma BeatsNot(b: Bond, policy: Policy, x: nat, y: nat, z: nat)
    requires Beats(b, policy, x, y) && Whole(b, z) && !Beats(b, policy, z, y)
    ensures !Beats(b, policy, z, x) && Beats(b, policy, x, z)
  {
    hide Key, Less;
    var kx, ky, kz := Key(b, policy, x), Key(b, policy, y), Key(b, policy, z);
    if !Less(kz, kx) {
      LessNegative(ky, kz, kx);
    }
    if Less(kx, kz) {
      LessTransitive(ky, kx, kz);
    }
  }

  lemma BeatsSelf(b: Bond, policy: Policy, x: nat)
    ensures !Beats(b, policy, x, x)
  {
    if Whole(b, x) {
      LessIrreflexive(Key(b, policy, x));
    }
  }

  /** One round of the loop over the slaves. */
  lemma LeadsNext(b: Bond, policy: Policy, prev: int, best: int, n: nat)
    requires Leads(b, policy, prev, best, n) && n < |b.slaves|
    ensures var a := b.slaves[n];
      Leads(b, policy, prev, if Usable(b, a) && (best == NONE || Beats(b, policy, a, best)) then a else best, n + 1)
  {
    hide Usable, Beats, Stands;
    var a := b.slaves[n];
    if Usable(b, a) && (best == NONE || Beats(b, policy, a, best)) {
      RisesNext(b, policy, prev, best, n);
      assert Rose(b, policy, prev, a, n);
    } else if best != NONE && !(Stands(b, prev) && best == prev) {
      var m :| 0 <= m < n && Rose(b, policy, prev, best, m);
    }
  }

  lemma RisesNext(b: Bond, policy: Policy, prev: int, best: int, n: nat)
    requires Leads(b, policy, prev, best, n) && n < |b.slaves| && Usable(b, b.slaves[n])
    requires best == NONE || Beats(b, policy, b.slaves[n], best)
    ensures Rose(b, policy, prev, b.slaves[n], n) && Unbeaten(b, policy, b.slaves[n], n + 1)
  {
    var a := b.slaves[n];
    BeatsSelf(b, policy, a);
    forall j | 0 <= j < n && Usable(b, b.slaves[j])
        ensures !Beats(b, policy, b.slaves[j], a) && Beats(b, policy, a, b.slaves[j]) {
      hide Beats, DeviceUp, ActivePorts;
      assert best != NONE;
      BeatsNot(b, policy, a, best, b.slaves[j]);
    }
    hide Beats, Usable;
    if Stands(b, prev) && best != prev {
      var m :| 0 <= m < n && Rose(b, policy, prev, best, m);
      BeatsTransitive(b, policy, a, best, prev);
    }
  }

  /** Under the STABLE policy the former active aggregator is not replaced. */
  ghost predicate Stays(b: Bond, policy: Policy, prev: int, best: int) {
    && policy.Stable? && best >= 0 && prev >= 0 && Whole(b, best) && Whole(b, prev)
    && ActivePorts(b.ports, b.lists[prev]) > 0 && (Partnered(b.aggs[prev]) || !Partnered(b.aggs[best]))
    && !(b.aggs[prev].params.key == 0 && b.aggs[best].params.key != 0)
  }

  /** Aggregator `c` alone becomes active. */
  ghost function Activate(b: Bond, c: int): (r: Bond)
    ensures |r.aggs| == |b.aggs|
  {
    b.(aggs := seq(|b.aggs|, a requires 0 <= a < |b.aggs| => if a in b.slaves then b.aggs[a].(active := a == c)
        else b.aggs[a]))
  }

  ghost predicate Winner(b: Bond, policy: Policy, prev: int, c: int) {
    exists best :: Leads(b, policy, prev, best, |b.slaves|) && c == if Stays(b, policy, prev, best) then prev else best
  }

  ghost predicate Election(b: Bond, policy: Policy, r: Bond) {
    exists prev, c :: WasActive(b, prev) && Winner(b, policy, prev, c) && r == Activate(b, c)
  }

  /** Whoever wins has ports. */
  lemma WinnerHasPorts(b: Bond, policy: Policy, prev: int, c: int)
    requires WasActive(b, prev) && Winner(b, policy, prev, c)
    ensures c != NONE ==> c >= 0 && c in b.slaves && c < |b.lists| && b.lists[c] != []
  {
    hide Beats;
    var best :| Leads(b, policy, prev, best, |b.slaves|) && c == if Stays(b, policy, prev, best) then prev else best;
    if c == prev && c != NONE {
      assert Whole(b, c);
      ActiveNonEmpty(b.ports, b.lists[c]);
    } else if c != NONE {
      var m :| 0 <= m < |b.slaves| && Rose(b, policy, prev, best, m);
      ActiveNonEmpty(b.ports, b.lists[c]);
    }
  }

  /** An election keeps the lists, and leaves at most one aggregator active. */
  lemma ElectionKeeps(b: Bond, policy: Policy, r: Bond, x: int)
    requires GoodBut(b, x) && Election(b, policy, r)
    ensures GoodBut(r, x) && r.slaves == b.slaves && r.ports == b.ports && r.lists == b.lists
  {
    hide Winner, Chain, Distinct;
    var prev, c :| WasActive(b, prev) && Winner(b, policy, prev, c) && r == Activate(b, c);
    WinnerHasPorts(b, policy, prev, c);
    forall a | a in r.slaves ensures Linked(r, a) {
      assert Linked(b, a);
    }
    forall p | p in r.slaves && p != x ensures Placed(r, p) {
      assert Placed(b, p);
    }
  }

  ghost predicate ActiveIn(b: Bond, a: nat) {
    a in b.slaves && a < |b.aggs| && b.aggs[a].active
  }

  lemma ElectionWinner(b: Bond, policy: Policy, r: Bond) returns (prev: int, c: int)
    requires Sized(b) && Election(b, policy, r)
    ensures WasActive(b, prev) && Winner(b, policy, prev, c) && forall a :: ActiveIn(r, a) <==> a in b.slaves && a == c
  {
    hide Winner;
    prev, c :| WasActive(b, prev) && Winner(b, policy, prev, c) && r == Activate(b, c);
  }

  lemma LeaderIs(b: Bond, policy: Policy, prev: int, best: int)
    requires Leads(b, policy, prev, best, |b.slaves|)
    ensures best != NONE ==> best >= 0
    ensures best != NONE && best != prev ==>
      best in b.slaves && Usable(b, best) && (Stands(b, prev) ==> Beats(b, policy, best, prev))
    ensures best != NONE && best == prev && !Stands(b, prev) ==> best in b.slaves && Usable(b, best)
    ensures best == NONE ==> !Stands(b, prev)
  {
    hide Usable, Beats, Stands, Unbeaten;
    if best != NONE && !(Stands(b, prev) && best == prev) {
      var m :| 0 <= m < |b.slaves| && Rose(b, policy, prev, best, m);
    }
  }

  /** Under a policy other than STABLE, no usable aggregator is strictly better than the active
      one, and there is an active one whenever some aggregator is usable. */
  lemma ActiveIsBest(b: Bond, policy: Policy, r: Bond, a: nat)
    requires Good(b) && !policy.Stable? && Election(b, policy, r) && a in b.slaves && Usable(b, a)
    ensures exists c :: ActiveIn(r, c) && !Beats(b, policy, a, c)
  {
    hide Beats, Usable, Linked, Placed;
    var prev, c := ElectionWinner(b, policy, r);
    WinnerHasPorts(b, policy, prev, c);
    assert Leads(b, policy, prev, c, |b.slaves|);
    var j :| 0 <= j < |b.slaves| && b.slaves[j] == a;
    assert Usable(b, b.slaves[j]);
    assert ActiveIn(r, c);
  }

  /** The former active aggregator loses its place only to a strictly better one, or when no
      device of it is up. */
  lemma TiesKeepActive(b: Bond, policy: Policy, r: Bond, prev: nat)
    requires Good(b) && !policy.Stable? && Election(b, policy, r) && ActiveIn(b, prev)
    requires Whole(b, prev) && DeviceUp(b.ports, b.lists[prev])
    requires forall a :: a in b.slaves && Usable(b, a) ==> !Beats(b, policy, a, prev)
    ensures ActiveIn(r, prev)
  {
    hide Beats, Linked, Placed, ActivePorts, DeviceUp;
    var was, c := ElectionWinner(b, policy, r);
    assert was == prev;
    LeaderIs(b, policy, prev, c);
    assert Stands(b, prev);
  }

  /** With no usable aggregator, nothing is active unless the former active one has a device up. */
  lemma NoneUsable(b: Bond, policy: Policy, r: Bond)
    requires Good(b) && Election(b, policy, r) && forall a :: a in b.slaves ==> !Usable(b, a)
    ensures (exists c :: ActiveIn(r, c)) <==> exists c: nat :: ActiveIn(b, c) && Stands(b, c)
  {
    hide Beats, Linked, Placed, Usable, Stands;
    var prev, c := ElectionWinner(b, policy, r);
    var best :| Leads(b, policy, prev, best, |b.slaves|) && c == if Stays(b, policy, prev, best) then prev else best;
    LeaderIs(b, policy, prev, best);
    if best != NONE {
      assert ActiveIn(b, prev) && ActiveIn(r, prev);
    }
  }

  lemma RoseLeads(b: Bond, policy: Policy, prev: int, x: nat, m: nat, y: int)
    requires Rose(b, policy, prev, x, m) && Leads(b, policy, prev, y, |b.slaves|)
    ensures y >= 0 && !Beats(b, policy, x, y) && !(Stands(b, prev) && y == prev)
  {
    hide Beats, Stands;
    assert Usable(b, b.slaves[m]);
  }

  /** There is only one best aggregator. */
  lemma LeaderUnique(b: Bond, policy: Policy, prev: int, x: int, y: int)
    requires Leads(b, policy, prev, x, |b.slaves|) && Leads(b, policy, prev, y, |b.slaves|)
    ensures x == y
  {
    hide Usable, Beats, Stands;
    if x != NONE && !(Stands(b, prev) && x == prev) {
      var m :| 0 <= m < |b.slaves| && Rose(b, policy, prev, x, m);
      RoseLeads(b, policy, prev, x, m, y);
      var k :| 0 <= k < |b.slaves| && Rose(b, policy, prev, y, k);
      RoseLeads(b, policy, prev, y, k, x);
    }
  }

  /** Exactly when the STABLE policy replaces the active aggregator `prev`: the best one `best` is another one, and
      `prev` has no enabled port, or no partner while `best` has one, or no key while `best` has one. */
  lemma StableExactly(b: Bond, r: Bond, prev: nat, best: int)
    requires Good(b) && Election(b, Stable, r) && ActiveIn(b, prev) && Leads(b, Stable, prev, best, |b.slaves|)
    ensures Whole(b, prev) && (best != NONE ==> best >= 0 && Whole(b, best))
    ensures !ActiveIn(r, prev) <==>
      best != prev && (best == NONE || ActivePorts(b.ports, b.lists[prev]) == 0
                       || (!Partnered(b.aggs[prev]) && Partnered(b.aggs[best]))
                       || (b.aggs[prev].params.key == 0 && b.aggs[best].params.key != 0))
  {
    hide Beats, Placed, ActivePorts, DeviceUp;
    var was, c := ElectionWinner(b, Stable, r);
    assert was == prev;
    var x :| Leads(b, Stable, prev, x, |b.slaves|) && c == if Stays(b, Stable, prev, x) then prev else x;
    LeaderUnique(b, Stable, prev, x, best);
    LeaderIs(b, Stable, prev, best);
    assert Linked(b, prev);
  }

  /** Two ports on two aggregators; the first one is active and has no partner. */
  const TWO_PORTS := Bond([0, 1],
    [Port(0, NONE, true, true, true, 1000, 255, Params(1, 0, 65535, 1)),
        Port(1, NONE, true, true, true, 1000, 255, Params(1, 7, 65535, 1))],
    [Agg(0, 1, true, false, Params(1, 0, 65535, 1)), Agg(1, 1, false, false, Params(1, 7, 65535, 1))],
    [[0], [1]])

  lemma TwoPortsGood()
    ensures Good(TWO_PORTS)
  {
    var b := TWO_PORTS;
    assert Linked(b, 0) && Linked(b, 1) && Placed(b, 0) && Placed(b, 1);
  }

  lemma TwoPortsUsable()
    ensures forall a :: 0 <= a < 2 ==> Usable(TWO_PORTS, a) && ActivePorts(TWO_PORTS.ports, TWO_PORTS.lists[a]) == 1
    ensures Beats(TWO_PORTS, Stable, 1, 0)
  {
    var b := TWO_PORTS;
    assert ActivePorts(b.ports, [0]) == 1 && ActivePorts(b.ports, [1]) == 1;
    assert b.ports[b.lists[0][0]].up && b.ports[b.lists[1][0]].up;
    LessFive(Key(b, Stable, 0), Key(b, Stable, 1));
  }

  /** The rule that an active aggregator with ports stays does not hold: here it has an enabled port on a device that is
      up, but no partner, and is replaced by one with a partner. */
  lemma StableReplaces() returns (b: Bond, r: Bond)
    ensures Good(b) && Election(b, Stable, r) && ActiveIn(b, 0) && !ActiveIn(r, 0) && ActiveIn(r, 1)
    ensures Whole(b, 0) && ActivePorts(b.ports, b.lists[0]) == 1 && DeviceUp(b.ports, b.lists[0])
  {
    hide Leads, Beats, Good, ActivePorts, DeviceUp;
    b := TWO_PORTS;
    TwoPortsGood();
    TwoPortsUsable();
    BeatsSelf(b, Stable, 0);
    LeadsFrom(b, Stable, 0);
    LeadsNext(b, Stable, 0, 0, 0);
    LeadsNext(b, Stable, 0, 0, 1);
    r := Activate(b, 1);
    assert Winner(b, Stable, 0, 1);
  }

  lemma LeadsFrom(b: Bond, policy: Policy, prev: nat)
    requires Stands(b, prev)
    ensures Leads(b, policy, prev, prev, 0)
  {
  }
}

/** Binding, selecting and unbinding ports as steps on a bond, and what every run keeps. */
module LacpRun {
  import opened LacpList
  import opened LacpElect

  ghost predicate OnList(b: Bond, a: int, i: nat, p: nat) {
    a >= 0 && a in b.slaves && Whole(b, a) && i < |b.lists[a]| && b.lists[a][i] == p
  }

  /** Port `p` leaves its aggregator, if it has one. */
  ghost predicate Detaches(b: Bond, p: nat, d: Bond) {
    && p < |b.ports|
    && if b.ports[p].agg == NONE then d == b
       else exists i: nat :: OnList(b, b.ports[p].agg, i, p) && d == Unhook(Remove(b, b.ports[p].agg, i), p)
  }

  /** Aggregator `a` has ports, an answering partner and the parameters of port `p`. */
  ghost predicate Suits(b: Bond, p: nat, a: nat) {
    && p < |b.ports| && Whole(b, a) && b.lists[a] != [] && b.aggs[a].params == b.ports[p].params
    && Partnered(b.aggs[a]) && !b.aggs[a].individual
  }

  ghost predicate Free(b: Bond, a: nat) {
    Whole(b, a) && b.lists[a] == []
  }

  /** Slave `k` holds the aggregator for port `p`: the first that suits, or else the first free one. */
  ghost predicate TargetAt(b: Bond, p: nat, k: nat) {
    && k < |b.slaves|
    && if Suits(b, p, b.slaves[k]) then forall j :: 0 <= j < k ==> !Suits(b, p, b.slaves[j])
       else Free(b, b.slaves[k]) && (forall j :: 0 <= j < |b.slaves| ==> !Suits(b, p, b.slaves[j]))
            && forall j :: 0 <= j < k ==> !Free(b, b.slaves[j])
  }

  ghost predicate Joins(b: Bond, p: nat, r: Bond) {
    p < |b.ports| && exists k: nat :: TargetAt(b, p, k) && r == Attach(b, p, b.slaves[k])
  }

  /** The selection logic for port `p`. */
  ghost predicate Selects(b: Bond, p: nat, policy: Policy, r: Bond) {
    && p < |b.ports|
    && if b.ports[p].selected then r == b
       else exists d, c :: Detaches(b, p, d) && Joins(d, p, c) && Election(c, policy, r)
  }

  /** Slave `k` holds the first aggregator with no port but that of the leaving slave `s`. */
  ghost predicate SpareAt(b: Bond, s: nat, k: nat) {
    k < |b.slaves| && Spare(b, b.slaves[k], s) && forall j :: 0 <= j < k ==> !Spare(b, b.slaves[j], s)
  }

  ghost predicate ElectsIf(b: Bond, needed: bool, policy: Policy, r: Bond) {
    if needed then Election(b, policy, r) else r == b
  }

  /** The ports on the aggregator of the leaving slave `s` get another one. */
  ghost predicate Empties(b: Bond, s: nat, policy: Policy, c: Bond) {
    && s in b.slaves && s < |b.aggs| == |b.lists|
    && if b.lists[s] == [] then c == b
       else if b.lists[s] == [s] then ElectsIf(Clear(b, s), b.aggs[s].active, policy, c)
       else exists k: nat :: SpareAt(b, s, k) && b.slaves[k] < |b.aggs| &&
                        ElectsIf(Move(b, s, b.slaves[k]), b.lists[b.slaves[k]] != []
                            && b.aggs[b.slaves[k]].active, policy, c)
  }

  /** The port of the leaving slave `s` leaves the list it is still on. */
  ghost predicate Frees(b: Bond, s: nat, policy: Policy, c: Bond) {
    if Loose(b, s) then c == b
    else exists a: nat, i: nat :: OnList(b, a, i, s) && Whole(Remove(b, a, i), a) &&
                        ElectsIf(Remove(b, a, i), ActivePorts(Remove(b, a, i).ports, Remove(b, a, i).lists[a]) == 0
                            && b.aggs[a].active, policy, c)
  }

  ghost predicate Drops(b: Bond, s: nat, r: Bond) {
    exists i :: 0 <= i < |b.slaves| && b.slaves[i] == s && r == Drop(b, i)
  }

  ghost predicate Unbinds(b: Bond, s: nat, policy: Policy, r: Bond) {
    exists c, d :: Empties(b, s, policy, c) && Frees(c, s, policy, d) && Drops(d, s, r)
  }

  // ----- each step keeps the lists -----

  lemma DetachKeeps(b: Bond, p: nat, d: Bond)
    requires Good(b) && p in b.slaves && Detaches(b, p, d) && !b.ports[p].selected
    ensures Good(d) && d.slaves == b.slaves && |d.ports| == |b.ports|
        && d.ports[p] == b.ports[p].(agg := NONE, next := NONE)
    ensures forall q :: q in b.slaves && q != p ==> d.ports[q].agg == b.ports[q].agg
  {
    hide Linked, Placed, OneActive;
    if b.ports[p].agg == NONE {
      assert Placed(b, p);
      PlacedNone(b, p);
    } else {
      var a := b.ports[p].agg;
      var i: nat :| OnList(b, a, i, p) && d == Unhook(Remove(b, a, i), p);
      Removed(b, a, i, NONE);
      Unhooked(Remove(b, a, i), p);
    }
  }

  lemma PlacedNone(b: Bond, p: nat)
    requires Placed(b, p) && b.ports[p].agg == NONE
    ensures b.ports[p].next == NONE
  {
  }

  lemma NoneOn(b: Bond, p: nat, a: nat)
    requires Linked(b, a) && p < |b.ports| && b.ports[p].agg == NONE
    ensures b.lists[a] != [] ==> b.lists[a][0] in b.lists[a] && b.lists[a][0] != p
  {
  }

  /** Some aggregator is free for a port without one: there are as many aggregators as ports. */
  lemma FreeExists(b: Bond, p: nat)
    requires Good(b) && p in b.slaves && b.ports[p].agg == NONE
    ensures exists k :: 0 <= k < |b.slaves| && Free(b, b.slaves[k])
  {
    SpareExists(b, p);
    var a: nat :| Spare(b, a, p);
    assert Linked(b, a);
    NoneOn(b, p, a);
    var k :| 0 <= k < |b.slaves| && b.slaves[k] == a;
  }

  /** Selection always finds an aggregator. */
  lemma TargetExists(b: Bond, p: nat)
    requires Good(b) && p in b.slaves && b.ports[p].agg == NONE
    ensures exists k: nat :: TargetAt(b, p, k)
  {
    FreeExists(b, p);
    hide Suits, Free, Good;
    var k := 0;
    while k < |b.slaves| && !Suits(b, p, b.slaves[k])
      invariant 0 <= k <= |b.slaves| && forall j :: 0 <= j < k ==> !Suits(b, p, b.slaves[j])
    {
      k := k + 1;
    }
    if k == |b.slaves| {
      k := 0;
      while !Free(b, b.slaves[k])
        invariant 0 <= k < |b.slaves| && forall j :: 0 <= j < k ==> !Free(b, b.slaves[j])
        decreases |b.slaves| - k
      {
        k := k + 1;
      }
    }
    assert TargetAt(b, p, k);
  }

  lemma JoinKeeps(b: Bond, p: nat, r: Bond)
    requires Good(b) && p in b.slaves && b.ports[p].agg == NONE && Joins(b, p, r)
    ensures Good(r) && r.slaves == b.slaves && |r.ports| == |b.ports| && r.ports[p].agg in b.slaves
        && r.ports[p].selected
    ensures forall q :: q in b.slaves && q != p ==> r.ports[q] == b.ports[q]
  {
    hide Linked, Placed, OneActive, Joined;
    var k: nat :| TargetAt(b, p, k) && r == Attach(b, p, b.slaves[k]);
    Attached(b, p, b.slaves[k]);
  }

  /** Selection keeps the lists in order, gives the port an aggregator of the bond and changes no other
      port's aggregator. */
  lemma SelectKeeps(b: Bond, p: nat, policy: Policy, r: Bond)
    requires Good(b) && p in b.slaves && Selects(b, p, policy, r)
    ensures Good(r) && r.slaves == b.slaves && |r.ports| == |b.ports| && r.ports[p].selected
        && r.ports[p].agg in b.slaves
    ensures forall q :: q in b.slaves && q != p ==> r.ports[q].agg == b.ports[q].agg
  {
    hide Linked, Placed, OneActive, Detaches, Joins, Election;
    if b.ports[p].selected {
      SelectedPlaced(b, p);
    } else {
      var d, c :| Detaches(b, p, d) && Joins(d, p, c) && Election(c, policy, r);
      DetachKeeps(b, p, d);
      JoinKeeps(d, p, c);
      ElectionKeeps(c, policy, r, NONE);
    }
  }

  lemma SelectedPlaced(b: Bond, p: nat)
    requires Good(b) && p in b.slaves && b.ports[p].selected
    ensures b.ports[p].agg in b.slaves
  {
    assert Placed(b, p);
  }

  lemma ElectsIfKeeps(b: Bond, needed: bool, policy: Policy, r: Bond, x: int)
    requires GoodBut(b, x) && ElectsIf(b, needed, policy, r)
    ensures GoodBut(r, x) && r.slaves == b.slaves && r.ports == b.ports && r.lists == b.lists
  {
    if needed {
      ElectionKeeps(b, policy, r, x);
    }
  }

  /** Unbinding always finds an aggregator for the remaining ports, other than the one that goes. */
  lemma ReplacementExists(b: Bond, s: nat)
    requires Good(b) && s in b.slaves && b.lists[s] != [] && b.lists[s] != [s]
    ensures exists k: nat :: SpareAt(b, s, k) && b.slaves[k] != s
  {
    SpareExists(b, s);
    var a: nat :| Spare(b, a, s);
    var n :| 0 <= n < |b.slaves| && b.slaves[n] == a;
    var k := 0;
    while !Spare(b, b.slaves[k], s)
      invariant 0 <= k <= n && forall j :: 0 <= j < k ==> !Spare(b, b.slaves[j], s)
      decreases n - k
    {
      k := k + 1;
    }
    assert SpareAt(b, s, k);
    NotSpare(b, s);
  }

  lemma NotSpare(b: Bond, s: nat)
    requires Good(b) && s in b.slaves
    ensures Spare(b, s, s) <==> b.lists[s] == [] || b.lists[s] == [s]
  {
    assert Linked(b, s);
    var l := b.lists[s];
    if Spare(b, s, s) && l != [] {
      forall k | 0 <= k < |l| ensures l[k] == s {
        assert l[k] in l;
      }
      NotTwice(l, s);
      assert |l| == 1;
    }
  }

  /** The groups of ports that share an aggregator stay the same, for all but port `x`. */
  ghost predicate SameGroups(b: Bond, c: Bond, x: nat) {
    && |c.ports| == |b.ports|
    && (forall p :: p in c.slaves && p < |c.ports| && p != x ==>
          p in b.slaves && (c.ports[p].agg == NONE <==> b.ports[p].agg == NONE))
    && forall p, q :: p in c.slaves && q in c.slaves && p < |c.ports| && q < |c.ports| && p != x && q != x ==>
         (c.ports[p].agg == c.ports[q].agg <==> b.ports[p].agg == b.ports[q].agg)
  }

  lemma MoveGroups(b: Bond, s: nat, a: nat)
    requires Good(b) && s in b.slaves && Spare(b, a, s) && a != s
    ensures SameGroups(b, Move(b, s, a), s)
  {
    assert Linked(b, s) && Linked(b, a);
    forall p | p in b.slaves && p != s ensures b.ports[p].agg != a && (b.ports[p].agg == s <==> p in b.lists[s]) {
      assert Placed(b, p);
    }
    hide Linked, Placed, Links;
  }

  lemma EmptiesKeeps(b: Bond, s: nat, policy: Policy, c: Bond)
    requires Good(b) && Empties(b, s, policy, c)
    ensures GoodBut(c, s) && c.slaves == b.slaves && c.lists[s] == [] && SameGroups(b, c, s)
  {
    hide Linked, Placed, OneActive, ElectsIf;
    if b.lists[s] == [s] {
      NotSpare(b, s);
      Cleared(b, s);
      ElectsIfKeeps(Clear(b, s), b.aggs[s].active, policy, c, s);
    } else if b.lists[s] != [] {
      var k: nat :| SpareAt(b, s, k) && b.slaves[k] < |b.aggs| &&
               ElectsIf(Move(b, s, b.slaves[k]), b.lists[b.slaves[k]] != [] && b.aggs[b.slaves[k]].active, policy, c);
      var a := b.slaves[k];
      NotSpare(b, s);
      Moved(b, s, a, s);
      MoveGroups(b, s, a);
      ElectsIfKeeps(Move(b, s, a), b.lists[a] != [] && b.aggs[a].active, policy, c, s);
    }
  }

  lemma RemoveGroups(b: Bond, a: nat, i: nat, s: nat)
    requires OnList(b, a, i, s)
    ensures var c := Remove(b, a, i);
      c.slaves == b.slaves && SameGroups(b, c, s) && (s < |b.lists| && b.lists[s] == [] ==> c.lists[s] == [])
  {
  }

  lemma FreesKeeps(b: Bond, s: nat, policy: Policy, c: Bond)
    requires GoodBut(b, s) && s in b.slaves && s < |b.lists| && b.lists[s] == [] && Frees(b, s, policy, c)
    ensures GoodBut(c, s) && c.slaves == b.slaves && c.lists[s] == [] && Loose(c, s) && SameGroups(b, c, s)
  {
    hide GoodBut, ElectsIf, ActivePorts, SameGroups;
    if Loose(b, s) {
      SameGroupsSelf(b, s);
    } else {
      var a: nat, i: nat :| OnList(b, a, i, s) && Whole(Remove(b, a, i), a) &&
                  ElectsIf(Remove(b, a, i), ActivePorts(Remove(b, a, i).ports, Remove(b, a, i).lists[a]) == 0
                      && b.aggs[a].active, policy, c);
      var r := Remove(b, a, i);
      LinkedIn(b, s, a);
      Removed(b, a, i, s);
      RemoveGroups(b, a, i, s);
      hide Remove;
      ElectsIfKeeps(r, ActivePorts(r.ports, r.lists[a]) == 0 && b.aggs[a].active, policy, c, s);
      SameGroupsPorts(b, r, c, s);
    }
  }

  lemma LinkedIn(b: Bond, x: int, a: nat)
    requires GoodBut(b, x) && a in b.slaves
    ensures Linked(b, a)
  {
  }

  lemma SameGroupsSelf(b: Bond, s: nat)
    ensures SameGroups(b, b, s)
  {
  }

  lemma SameGroupsPorts(b: Bond, c: Bond, d: Bond, s: nat)
    requires SameGroups(b, c, s) && d.ports == c.ports && d.slaves == c.slaves
    ensures SameGroups(b, d, s)
  {
  }

  /** Unbinding slave `s` keeps the lists in order.  The remaining ports stay grouped as they were: two
      share an aggregator exactly if they did before, and none loses its aggregator. */
  lemma UnbindKeeps(b: Bond, s: nat, policy: Policy, r: Bond)
    requires Good(b) && Unbinds(b, s, policy, r)
    ensures Good(r) && s !in r.slaves && (forall p :: p in r.slaves <==> p in b.slaves && p != s) && SameGroups(b, r, s)
  {
    hide Linked, Placed, OneActive, Empties, Frees, SameGroups;
    var c, d :| Empties(b, s, policy, c) && Frees(c, s, policy, d) && Drops(d, s, r);
    EmptiesLeaves(b, s, policy, c);
    EmptiesKeeps(b, s, policy, c);
    FreesKeeps(c, s, policy, d);
    var i :| 0 <= i < |d.slaves| && d.slaves[i] == s && r == Drop(d, i);
    Dropped(d, i);
    WithoutIn(d.slaves, i);
    GroupsChain(b, c, d, r, s);
  }

  lemma EmptiesLeaves(b: Bond, s: nat, policy: Policy, c: Bond)
    requires Empties(b, s, policy, c)
    ensures s in b.slaves
  {
  }

  lemma GroupsChain(b: Bond, c: Bond, d: Bond, r: Bond, s: nat)
    requires SameGroups(b, c, s) && SameGroups(c, d, s) && r.ports == d.ports
        && (forall p :: p in r.slaves ==> p in d.slaves)
    ensures SameGroups(b, r, s)
  {
  }

  // ----- runs -----

  datatype Action = Bind(s: nat, port: Port)
                  | Select(p: nat, policy: Policy)
                  | Unbind(s: nat, policy: Policy)
                  | Reselect(policy: Policy)
                  | Change(ports: seq<Port>)

  /** Link changes and received frames touch neither the links between ports nor select a port. */
  ghost predicate Changes(old0: seq<Port>, ports: seq<Port>) {
    && |ports| == |old0|
    && forall p :: 0 <= p < |ports| ==>
         ports[p].agg == old0[p].agg && ports[p].next == old0[p].next && (ports[p].selected ==> old0[p].selected)
  }

  ghost predicate Fresh(port: Port) {
    port.agg == NONE && port.next == NONE && !port.selected
  }

  ghost predicate Step(b: Bond, act: Action, r: Bond) {
    match act
    case Bind(s, port) => s < |b.ports| && |b.ports| == |b.aggs| == |b.lists| && Fresh(port)
        && r == if s in b.slaves then b else Add(b, s, port)
    case Select(p, policy) => p in b.slaves && Selects(b, p, policy, r)
    case Unbind(s, policy) => if s in b.slaves then Unbinds(b, s, policy, r) else r == b
    case Reselect(policy) => Election(b, policy, r)
    case Change(ports) => Changes(b.ports, ports) && r == b.(ports := ports)
  }

  lemma ChangeKeeps(b: Bond, ports: seq<Port>)
    requires Good(b) && Changes(b.ports, ports)
    ensures Good(b.(ports := ports))
  {
    var r := b.(ports := ports);
    forall a | a in r.slaves ensures Linked(r, a) {
      assert Linked(b, a);
      Untouched(b, r, a);
    }
    forall p | p in r.slaves ensures Placed(r, p) {
      assert Placed(b, p);
    }
  }

  lemma StepKeeps(b: Bond, act: Action, r: Bond)
    requires Good(b) && Step(b, act, r)
    ensures Good(r)
  {
    hide Selects, Unbinds, Election, Linked, Placed, Changes;
    match act
    case Bind(s, port) => if s !in b.slaves { Added(b, s, port); }
    case Select(p, policy) => SelectKeeps(b, p, policy, r);
    case Unbind(s, policy) => if s in b.slaves { UnbindKeeps(b, s, policy, r); }
    case Reselect(policy) => ElectionKeeps(b, policy, r, NONE);
    case Change(ports) => ChangeKeeps(b, ports);
  }

  ghost predicate IsRun(states: seq<Bond>, acts: seq<Action>) {
    && |states| == |acts| + 1 && Sized(states[0]) && states[0].slaves == []
    && forall i :: 0 <= i < |acts| ==> Step(states[i], acts[i], states[i + 1])
  }

  /** In every state of every run that starts with no slave, each port is on the list of its aggregator
      and on no other, the counts are right, and at most one aggregator is active. */
  lemma {:induction false} RunKeeps(states: seq<Bond>, acts: seq<Action>, n: nat)
    requires IsRun(states, acts) && n < |states|
    ensures Good(states[n])
  {
    hide Step;
    if n > 0 {
      RunKeeps(states, acts, n - 1);
      StepKeeps(states[n - 1], acts[n - 1], states[n]);
    }
  }
}

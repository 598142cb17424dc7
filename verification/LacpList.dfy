/** Ports and aggregators of a bond (servers/bond_3ad.c) as values: how the lists of ports
    change, and the counting argument behind selection and unbinding. */
module LacpList {

  /** What a port and an aggregator must agree on: the actor's key, the partner's system,
      its priority and its key.  A system of 0 means that no partner has answered. */
  datatype Params = Params(key: nat, system: nat, sysPrio: nat, partnerKey: nat)

  const NONE: int := -1
  const NO_PARAMS := Params(0, 0, 0, 0)

  /** A port.  `agg` is the number of its aggregator and `next` that of the port after it on
      the aggregator's list, or NONE. */
  datatype Port = Port(agg: int, next: int, selected: bool, enabled: bool, up: bool, speed: nat, prio: nat,
      params: Params)

  datatype Agg = Agg(first: int, num: int, active: bool, individual: bool, params: Params)

  const CLEARED := Agg(NONE, 0, false, false, NO_PARAMS)

  /** The bound slaves in order, and the port and the aggregator of every device.  `lists`
      says what the `first` and `next` links spell out. */
  datatype Bond = Bond(slaves: seq<nat>, ports: seq<Port>, aggs: seq<Agg>, lists: seq<seq<nat>>)

  ghost predicate Distinct(s: seq<nat>) {
    forall i, j :: 0 <= i < j < |s| ==> s[i] != s[j]
  }

  lemma NotTwice(s: seq<nat>, x: nat)
    requires Distinct(s)
    ensures |s| > 1 ==> !(s[0] == x && s[1] == x)
  {
  }

  function At(s: seq<nat>, i: nat): int {
    if i < |s| then s[i] else NONE
  }

  /** The `i`-th port of the list `s` links to the next one. */
  ghost predicate Link(ports: seq<Port>, s: seq<nat>, i: nat) {
    i < |s| && s[i] < |ports| && ports[s[i]].next == At(s, i + 1)
  }

  /** The `next` links from `first` on spell out the list `s`. */
  ghost predicate Chain(ports: seq<Port>, first: int, s: seq<nat>) {
    && Distinct(s) && first == At(s, 0)
    && (forall i :: 0 <= i < |s| ==> s[i] < |ports|)
    && forall i {:trigger Link(ports, s, i)} :: 0 <= i < |s| ==> Link(ports, s, i)
  }

  ghost predicate Sized(b: Bond) {
    |b.ports| == |b.aggs| == |b.lists| && Distinct(b.slaves) && forall a :: a in b.slaves ==> a < |b.ports|
  }

  /** The list of aggregator `a` has the right links, length and owner. */
  ghost predicate Linked(b: Bond, a: nat) {
    && a < |b.aggs| && a < |b.lists|
    && Chain(b.ports, b.aggs[a].first, b.lists[a]) && b.aggs[a].num == |b.lists[a]|
    && (forall p :: p in b.lists[a] ==> p in b.slaves && p < |b.ports| && b.ports[p].agg == a)
    && (b.lists[a] == [] ==> !b.aggs[a].active)
  }

  /** Port `p` is on the list of its aggregator, or has none. */
  ghost predicate Placed(b: Bond, p: nat) {
    && p < |b.ports|
    && if b.ports[p].agg == NONE then b.ports[p].next == NONE && !b.ports[p].selected
       else 0 <= b.ports[p].agg < |b.lists| && b.ports[p].agg in b.slaves && p in b.lists[b.ports[p].agg]
  }

  ghost predicate Links(b: Bond) {
    Sized(b) && forall a {:trigger Linked(b, a)} :: a in b.slaves ==> Linked(b, a)
  }

  ghost predicate OneActive(b: Bond) {
    forall x, y ::
      x in b.slaves && y in b.slaves && x < |b.aggs| && y < |b.aggs| && b.aggs[x].active && b.aggs[y].active ==> x == y
  }

  /** Everything is in order, except that port `x` may be on no list. */
  ghost predicate GoodBut(b: Bond, x: int) {
    Links(b) && OneActive(b) && forall p {:trigger Placed(b, p)} :: p in b.slaves && p != x ==> Placed(b, p)
  }

  ghost predicate Good(b: Bond) {
    GoodBut(b, NONE)
  }

  /** Port `p` is on no list. */
  ghost predicate Loose(b: Bond, p: nat) {
    forall a :: a in b.slaves && a < |b.lists| ==> p !in b.lists[a]
  }

  /** A port is on the list of aggregator `a` exactly when its aggregator is `a`; so it is on
      at most one list. */
  lemma OnListExactly(b: Bond, p: nat, a: nat)
    requires Good(b) && p in b.slaves && a in b.slaves
    ensures p < |b.ports| && a < |b.lists| && (p in b.lists[a] <==> b.ports[p].agg == a)
    ensures b.aggs[a].num == |b.lists[a]| == |set q | q in b.slaves && b.ports[q].agg == a|
  {
    assert Placed(b, p) && Linked(b, a);
    forall q | q in b.slaves ensures q in b.lists[a] <==> b.ports[q].agg == a {
      assert Placed(b, q);
    }
    SetSize(b.lists[a]);
    assert SetOf(b.lists[a]) == set q | q in b.slaves && b.ports[q].agg == a;
  }

  // ----- changes to the lists -----

  /** The `i`-th port of aggregator `a` is unlinked.  An aggregator left empty is cleared. */
  ghost function Remove(b: Bond, a: nat, i: nat): Bond
    requires a < |b.aggs| && a < |b.lists| && i < |b.lists[a]|
    requires forall k :: 0 <= k < |b.lists[a]| ==> b.lists[a][k] < |b.ports|
  {
    var s, agg := b.lists[a], b.aggs[a];
    var next := b.ports[s[i]].next;
    var first := if i == 0 then next else agg.first;
    b.(ports := if i == 0 then b.ports else b.ports[s[i - 1] := b.ports[s[i - 1]].(next := next)],
       aggs := b.aggs[a := if first == NONE then CLEARED else agg.(first := first, num := agg.num - 1)],
       lists := b.lists[a := Without(s, i)])
  }

  function Without(s: seq<nat>, i: nat): (r: seq<nat>)
    requires i < |s|
    ensures |r| == |s| - 1 && forall k :: 0 <= k < |r| ==> r[k] == s[if k < i then k else k + 1]
  {
    s[..i] + s[i + 1..]
  }

  lemma WithoutIn(s: seq<nat>, i: nat)
    requires i < |s| && Distinct(s)
    ensures Distinct(Without(s, i)) && forall p :: p in Without(s, i) <==> p in s && p != s[i]
  {
    var r := Without(s, i);
    forall p ensures p in r <==> p in s && p != s[i] {
      if p in r {
        var k :| 0 <= k < |r| && r[k] == p;
      }
      if p in s && p != s[i] {
        var k :| 0 <= k < |s| && s[k] == p;
        assert r[if k < i then k else k - 1] == p;
      }
    }
  }

  /** Port `p`, on no list, loses its aggregator. */
  ghost function Unhook(b: Bond, p: nat): Bond
    requires p < |b.ports|
  {
    b.(ports := b.ports[p := b.ports[p].(agg := NONE, next := NONE)])
  }

  /** Port `p` becomes the first of aggregator `a`; an empty aggregator takes its parameters. */
  ghost function Attach(b: Bond, p: nat, a: nat): Bond
    requires p < |b.ports| && a < |b.aggs| && a < |b.lists|
  {
    b.(ports := b.ports[p := b.ports[p].(agg := a, next := b.aggs[a].first, selected := true)],
       aggs := b.aggs[a := Joined(b.aggs[a], p, b.ports[p].params)],
       lists := b.lists[a := [p] + b.lists[a]])
  }

  function Joined(agg: Agg, p: nat, params: Params): Agg {
    if agg.first == NONE then agg.(first := p, num := agg.num + 1, individual := params.key % 2 == 0, params := params)
    else agg.(first := p, num := agg.num + 1)
  }

  /** Aggregator `a` takes over the ports of aggregator `own`. */
  ghost function Move(b: Bond, own: nat, a: nat): (r: Bond)
    requires own < |b.aggs| == |b.lists| && a < |b.aggs|
    ensures |r.ports| == |b.ports|
  {
    b.(ports := seq(|b.ports|, p requires 0 <= p < |b.ports| => if p in b.lists[own] then b.ports[p].(agg := a)
        else b.ports[p]),
       aggs := b.aggs[a := b.aggs[own]][own := CLEARED],
       lists := b.lists[a := b.lists[own]][own := []])
  }

  /** Aggregator `own` is cleared. */
  ghost function Clear(b: Bond, own: nat): Bond
    requires own < |b.aggs| == |b.lists|
  {
    b.(aggs := b.aggs[own := CLEARED], lists := b.lists[own := []])
  }

  ghost function Drop(b: Bond, i: nat): Bond
    requires i < |b.slaves|
  {
    b.(slaves := Without(b.slaves, i))
  }

  ghost function Add(b: Bond, s: nat, port: Port): Bond
    requires s < |b.ports| && s < |b.aggs| && s < |b.lists|
  {
    b.(slaves := b.slaves + [s], ports := b.ports[s := port], aggs := b.aggs[s := CLEARED], lists := b.lists[s := []])
  }

  /** The lists of other aggregators are not touched. */
  lemma Untouched(b: Bond, c: Bond, a: nat)
    requires Linked(b, a) && a < |c.aggs| && a < |c.lists| && |c.ports| == |b.ports|
    requires c.aggs[a] == b.aggs[a] && c.lists[a] == b.lists[a]
    requires forall p :: p in b.lists[a] ==> p in c.slaves && c.ports[p].next == b.ports[p].next && c.ports[p].agg == a
    ensures Linked(c, a)
  {
    var s := b.lists[a];
    forall i | 0 <= i < |s| ensures Link(c.ports, s, i) {
      assert Link(b.ports, s, i) && s[i] in s;
    }
  }

  /** The chain without its `i`-th port. */
  lemma ChainWithout(ports: seq<Port>, first: int, s: seq<nat>, i: nat, ports': seq<Port>)
    requires Chain(ports, first, s) && i < |s|
    requires ports' == if i == 0 then ports else ports[s[i - 1] := ports[s[i - 1]].(next := ports[s[i]].next)]
    ensures Chain(ports', if i == 0 then ports[s[i]].next else first, Without(s, i))
  {
    var r := Without(s, i);
    WithoutIn(s, i);
    assert Link(ports, s, i);
    forall k | 0 <= k < |r| ensures Link(ports', r, k) {
      assert Link(ports, s, if k < i then k else k + 1);
    }
  }

  lemma RemovedOwn(b: Bond, a: nat, i: nat)
    requires Linked(b, a) && i < |b.lists[a]|
    ensures Linked(Remove(b, a, i), a)
  {
    hide Distinct;
    var c, s := Remove(b, a, i), b.lists[a];
    ChainDistinct(b.ports, b.aggs[a].first, s);
    WithoutIn(s, i);
    ChainWithout(b.ports, b.aggs[a].first, s, i, c.ports);
    hide Chain;
  }

  lemma RemovedOther(b: Bond, a: nat, i: nat, e: nat)
    requires Linked(b, a) && i < |b.lists[a]| && Linked(b, e) && e != a
    ensures Linked(Remove(b, a, i), e) && b.lists[a][i] !in b.lists[e]
  {
    Untouched(b, Remove(b, a, i), e);
  }

  lemma RemovedPort(b: Bond, a: nat, i: nat, p: nat)
    requires Linked(b, a) && i < |b.lists[a]| && Placed(b, p) && p != b.lists[a][i]
    ensures Placed(Remove(b, a, i), p)
  {
    WithoutIn(b.lists[a], i);
  }

  lemma Removed(b: Bond, a: nat, i: nat, x: int)
    requires GoodBut(b, x) && a in b.slaves && Linked(b, a) && i < |b.lists[a]| && (x == NONE || x == b.lists[a][i])
    ensures GoodBut(Remove(b, a, i), b.lists[a][i]) && Loose(Remove(b, a, i), b.lists[a][i])
  {
    hide Placed, Chain, Distinct;
    var s := b.lists[a];
    assert Linked(b, a);
    ChainMembers(b, a);
    var c := Remove(b, a, i);
    RemovedOwn(b, a, i);
    assert Loose(c, s[i]) && Links(c) by {
      assert Distinct(s) by { assert Chain(b.ports, b.aggs[a].first, s); ChainDistinct(b.ports, b.aggs[a].first, s); }
      WithoutIn(s, i);
      forall e | e in c.slaves && e != a ensures Linked(c, e) && s[i] !in c.lists[e] {
        RemovedOther(b, a, i, e);
      }
    }
    forall p | p in c.slaves && p != s[i] ensures Placed(c, p) {
      RemovedPort(b, a, i, p);
    }
    OneActiveLess(b, c);
  }

  lemma ChainMembers(b: Bond, a: nat)
    requires Linked(b, a)
    ensures forall k :: 0 <= k < |b.lists[a]| ==> b.lists[a][k] < |b.ports|
  {
  }

  lemma ChainDistinct(ports: seq<Port>, first: int, s: seq<nat>)
    requires Chain(ports, first, s)
    ensures Distinct(s)
  {
  }

  /** Clearing aggregators keeps at most one active. */
  lemma OneActiveLess(b: Bond, c: Bond)
    requires OneActive(b) && c.slaves == b.slaves && |c.aggs| == |b.aggs|
    requires forall a :: a in b.slaves && a < |c.aggs| && c.aggs[a].active ==> b.aggs[a].active
    ensures OneActive(c)
  {
  }

  lemma Unhooked(b: Bond, p: nat)
    requires GoodBut(b, p) && p in b.slaves && Loose(b, p) && !b.ports[p].selected
    ensures Good(Unhook(b, p)) && Unhook(b, p).ports[p].agg == NONE
  {
    var c := Unhook(b, p);
    forall e | e in c.slaves ensures Linked(c, e) {
      assert Linked(b, e);
      Untouched(b, c, e);
    }
    forall q | q in c.slaves ensures Placed(c, q) {
      assert q != p ==> Placed(b, q);
    }
  }

  lemma AttachedOwn(b: Bond, p: nat, a: nat)
    requires Linked(b, a) && p in b.slaves && p < |b.ports| && b.ports[p].agg == NONE
    ensures Linked(Attach(b, p, a), a)
  {
    var c := Attach(b, p, a);
    var s, r := b.lists[a], c.lists[a];
    forall i | 0 <= i < |r| ensures Link(c.ports, r, i) {
      if i > 0 {
        assert r[i] == s[i - 1] && s[i - 1] in s && Link(b.ports, s, i - 1);
      }
    }
  }

  lemma Attached(b: Bond, p: nat, a: nat)
    requires Good(b) && p in b.slaves && a in b.slaves && b.ports[p].agg == NONE
    ensures Good(Attach(b, p, a)) && p in Attach(b, p, a).lists[a]
  {
    hide Chain, Distinct, Joined;
    var c := Attach(b, p, a);
    assert Linked(b, a) && Placed(b, p);
    AttachedOwn(b, p, a);
    forall e | e in c.slaves && e != a ensures Linked(c, e) {
      assert Linked(b, e);
      Untouched(b, c, e);
    }
    forall q | q in c.slaves ensures Placed(c, q) {
      assert Placed(b, q);
    }
    assert c.aggs[a].active == b.aggs[a].active by { JoinedActive(b.aggs[a], p, b.ports[p].params); }
    OneActiveLess(b, c);
  }

  lemma JoinedActive(agg: Agg, p: nat, params: Params)
    ensures Joined(agg, p, params).active == agg.active
  {
  }

  lemma MovedOwn(b: Bond, own: nat, a: nat)
    requires Linked(b, own) && own in b.slaves && a < |b.aggs| == |b.lists| && a != own
    ensures Linked(Move(b, own, a), a) && Linked(Move(b, own, a), own)
  {
    var c, s := Move(b, own, a), b.lists[own];
    forall i | 0 <= i < |s| ensures Link(c.ports, s, i) {
      assert Link(b.ports, s, i);
    }
  }

  lemma MovedPort(b: Bond, own: nat, a: nat, q: nat)
    requires Linked(b, own) && a in b.slaves && a < |b.aggs| == |b.lists| && a != own && Placed(b, q)
        && q !in b.lists[a]
    ensures Placed(Move(b, own, a), q)
  {
  }

  /** The replacement `a` had no port but `x`, which leaves. */
  lemma Moved(b: Bond, own: nat, a: nat, x: nat)
    requires Good(b) && own in b.slaves && Spare(b, a, x) && a != own
    ensures GoodBut(Move(b, own, a), x) && Move(b, own, a).lists[own] == []
  {
    hide Chain, Distinct, Placed;
    var c := Move(b, own, a);
    assert Linked(b, own) && Linked(b, a);
    MovedOwn(b, own, a);
    forall e | e in c.slaves && e != a && e != own ensures Linked(c, e) {
      assert Linked(b, e);
      Untouched(b, c, e);
    }
    forall q | q in c.slaves && q != x ensures Placed(c, q) {
      MovedPort(b, own, a, q);
    }
    assert OneActive(c);
  }

  lemma Cleared(b: Bond, own: nat)
    requires Good(b) && Spare(b, own, own)
    ensures GoodBut(Clear(b, own), own) && Clear(b, own).lists[own] == []
  {
    var c := Clear(b, own);
    assert Linked(b, own);
    forall e | e in c.slaves && e != own ensures Linked(c, e) {
      assert Linked(b, e);
      Untouched(b, c, e);
    }
    assert Linked(c, own);
    forall q | q in c.slaves && q != own ensures Placed(c, q) {
      assert Placed(b, q);
    }
    OneActiveLess(b, c);
  }

  lemma Dropped(b: Bond, i: nat)
    requires i < |b.slaves| && GoodBut(b, b.slaves[i]) && b.slaves[i] < |b.lists| && b.lists[b.slaves[i]] == []
        && Loose(b, b.slaves[i])
    ensures Good(Drop(b, i))
  {
    var c, x := Drop(b, i), b.slaves[i];
    WithoutIn(b.slaves, i);
    forall e | e in c.slaves ensures Linked(c, e) {
      assert Linked(b, e);
      Untouched(b, c, e);
    }
    forall q | q in c.slaves ensures Placed(c, q) {
      assert Placed(b, q);
    }
  }

  lemma Added(b: Bond, s: nat, port: Port)
    requires Good(b) && s < |b.ports| && s !in b.slaves && port.agg == NONE && port.next == NONE && !port.selected
    ensures Good(Add(b, s, port))
  {
    var c := Add(b, s, port);
    forall e | e in c.slaves ensures Linked(c, e) {
      if e != s {
        assert Linked(b, e);
        Untouched(b, c, e);
      }
    }
    forall q | q in c.slaves ensures Placed(c, q) {
      assert q != s ==> Placed(b, q);
    }
  }

  // ----- counting -----

  ghost function SetOf(s: seq<nat>): set<nat> {
    set x | x in s
  }

  lemma {:induction false} SetSize(s: seq<nat>)
    requires Distinct(s)
    ensures |SetOf(s)| == |s|
  {
    if s != [] {
      var front, x := s[..|s| - 1], s[|s| - 1];
      SetSize(front);
      assert SetOf(s) == SetOf(front) + {x} && x !in SetOf(front);
    }
  }

  ghost function Picked(s: seq<nat>, pick: map<nat, nat>): set<nat> {
    set a | a in s && a in pick :: pick[a]
  }

  ghost predicate OneToOne(s: seq<nat>, pick: map<nat, nat>) {
    && (forall a :: a in s ==> a in pick)
    && forall a, b :: a in s && b in s && a in pick && b in pick && pick[a] == pick[b] ==> a == b
  }

  /** Values picked by distinct aggregators are as many, when no two are equal. */
  lemma {:induction false} PickSize(s: seq<nat>, pick: map<nat, nat>)
    requires Distinct(s) && OneToOne(s, pick)
    ensures |Picked(s, pick)| == |s|
  {
    if s != [] {
      var front, x := s[..|s| - 1], s[|s| - 1];
      PickSize(front, pick);
      assert x !in front;
      assert Picked(s, pick) == Picked(front, pick) + {pick[x]};
      assert pick[x] !in Picked(front, pick);
    }
  }

  lemma SubsetSize(a: set<nat>, b: set<nat>)
    requires a <= b
    ensures |a| <= |b|
  {
    assert b == a + (b - a);
  }

  /** Aggregator `a` holds no port but `x`. */
  ghost predicate Spare(b: Bond, a: nat, x: nat) {
    a in b.slaves && a < |b.lists| && forall p :: p in b.lists[a] ==> p == x
  }

  ghost predicate PickOk(b: Bond, x: nat, a: nat, p: nat) {
    a < |b.lists| && p in b.lists[a] && p != x
  }

  lemma PickOwner(b: Bond, x: nat, a: nat, p: nat)
    requires Links(b) && a in b.slaves && PickOk(b, x, a, p)
    ensures p in b.slaves && p < |b.ports| && b.ports[p].agg == a && p != x
  {
    assert Linked(b, a);
  }

  ghost predicate PicksOk(b: Bond, x: nat, pick: map<nat, nat>) {
    forall a :: a in b.slaves ==> a in pick && PickOk(b, x, a, pick[a])
  }

  lemma PicksDiffer(b: Bond, x: nat, pick: map<nat, nat>)
    requires Links(b) && PicksOk(b, x, pick)
    ensures OneToOne(b.slaves, pick)
  {
    hide Linked, PickOk;
    forall a, c | a in b.slaves && c in b.slaves && a in pick && c in pick && pick[a] == pick[c] ensures a == c {
      PickOwner(b, x, a, pick[a]);
      PickOwner(b, x, c, pick[c]);
    }
  }

  lemma PicksInside(b: Bond, x: nat, pick: map<nat, nat>)
    requires Links(b) && PicksOk(b, x, pick)
    ensures Picked(b.slaves, pick) <= SetOf(b.slaves) - {x}
  {
    hide Linked, PickOk;
    forall p | p in Picked(b.slaves, pick) ensures p in SetOf(b.slaves) - {x} {
      var a :| a in b.slaves && a in pick && pick[a] == p;
      PickOwner(b, x, a, p);
    }
  }

  /** One port other than `x` picked from every list would be more ports than there are. */
  lemma TooMany(b: Bond, x: nat, pick: map<nat, nat>)
    requires Links(b) && x in b.slaves
    ensures !PicksOk(b, x, pick)
  {
    hide PicksOk, OneToOne, Linked, Picked;
    if PicksOk(b, x, pick) {
      SetSize(b.slaves);
      assert x in SetOf(b.slaves);
      PicksDiffer(b, x, pick);
      PicksInside(b, x, pick);
      PickSize(b.slaves, pick);
      SubsetSize(Picked(b.slaves, pick), SetOf(b.slaves) - {x});
      assert false;
    }
  }

  ghost function Pick(b: Bond, x: nat, a: nat): nat {
    if exists p: nat :: PickOk(b, x, a, p) then var p: nat :| PickOk(b, x, a, p); p else 0
  }

  lemma PickExists(b: Bond, x: nat, a: nat)
    requires Links(b) && a in b.slaves && !Spare(b, a, x)
    ensures PickOk(b, x, a, Pick(b, x, a))
  {
    hide Linked;
    var p :| p in b.lists[a] && p != x;
    assert PickOk(b, x, a, p);
  }

  /** There are as many aggregators as ports, so once port `x` is set aside some aggregator
      has no port left. */
  lemma SpareExists(b: Bond, x: nat)
    requires Links(b) && x in b.slaves
    ensures exists a: nat :: Spare(b, a, x)
  {
    hide Spare, Linked, PickOk, Pick;
    var pick := map a: nat | a in b.slaves :: Pick(b, x, a);
    TooMany(b, x, pick);
    var a :| a in b.slaves && !(a in pick && PickOk(b, x, a, pick[a]));
    if !Spare(b, a, x) {
      PickExists(b, x, a);
      assert false;
    }
  }
}

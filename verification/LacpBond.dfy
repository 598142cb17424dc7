/** The bond of servers/bond_3ad.c, its ports and aggregators changed in place. */
module LacpBond {
  import opened LacpList
  import opened LacpElect
  import opened LacpRun

  /** How many ports of a list are enabled. */
  method CountActive(ports: seq<Port>, first: int, ghost s: seq<nat>) returns (n: nat)
    requires Chain(ports, first, s)
    ensures n == ActivePorts(ports, s)
  {
    hide Distinct;
    n := 0;
    var port := first;
    ghost var i := 0;
    while port != NONE
      invariant 0 <= i <= |s| && port == At(s, i) && n + ActivePorts(ports, s[i..]) == ActivePorts(ports, s)
      decreases |s| - i
    {
      assert s[i..][1..] == s[i + 1..] && Link(ports, s, i);
      if ports[port].enabled {
        n := n + 1;
      }
      port := ports[port].next;
      i := i + 1;
    }
  }

  method SumPriority(ports: seq<Port>, first: int, ghost s: seq<nat>) returns (n: nat)
    requires Chain(ports, first, s)
    ensures n == Priority(ports, s)
  {
    hide Distinct;
    n := 0;
    var port := first;
    ghost var i := 0;
    while port != NONE
      invariant 0 <= i <= |s| && port == At(s, i) && n + Priority(ports, s[i..]) == Priority(ports, s)
      decreases |s| - i
    {
      assert s[i..][1..] == s[i + 1..] && Link(ports, s, i);
      if ports[port].enabled {
        n := n + ports[port].prio;
      }
      port := ports[port].next;
      i := i + 1;
    }
  }

  method SomeDeviceUp(ports: seq<Port>, first: int, ghost s: seq<nat>) returns (up: bool)
    requires Chain(ports, first, s)
    ensures up == DeviceUp(ports, s)
  {
    var port := first;
    ghost var i := 0;
    while port != NONE
      invariant 0 <= i <= |s| && port == At(s, i) && forall k :: 0 <= k < i ==> !ports[s[k]].up
      decreases |s| - i
    {
      assert Link(ports, s, i);
      if ports[port].up {
        return true;
      }
      port := ports[port].next;
      i := i + 1;
    }
    return false;
  }

  method SumSpeed(ports: seq<Port>, first: int, ghost s: seq<nat>) returns (n: nat)
    requires Chain(ports, first, s)
    ensures n == TotalSpeed(ports, s)
  {
    var active := CountActive(ports, first, s);
    n := 0;
    if active > 0 {
      ActiveNonEmpty(ports, s);
      n := active * ports[first].speed;
    }
  }

  /** The selection test between two aggregators: whether `curr` replaces `best`. */
  method BetterThan(ports: seq<Port>, policy: Policy, curr: Agg, best: Agg, ghost sc: seq<nat>, ghost sb: seq<nat>)
      returns (better: bool)
    requires Chain(ports, curr.first, sc) && Chain(ports, best.first, sb)
    ensures better <==> Less(Rank(ports, best, sb, policy), Rank(ports, curr, sc, policy))
  {
    hide ActivePorts, Priority, TotalSpeed, Chain;
    assert Within(ports, sc) && Within(ports,
        sb) by { ChainWithin(ports, curr.first, sc); ChainWithin(ports, best.first, sb); }
    LessFive(Rank(ports, best, sb, policy), Rank(ports, curr, sc, policy));
    if !curr.individual && best.individual { return true; }
    if curr.individual && !best.individual { return false; }
    if Partnered(curr) && !Partnered(best) { return true; }
    if !Partnered(curr) && Partnered(best) { return false; }
    if policy.Prio? {
      var pc := SumPriority(ports, curr.first, sc);
      var pb := SumPriority(ports, best.first, sb);
      if pc > pb { return true; }
      if pc < pb { return false; }
    }
    if policy.Prio? || policy.Count? {
      var nc := CountActive(ports, curr.first, sc);
      var nb := CountActive(ports, best.first, sb);
      if nc > nb { return true; }
      if nc < nb { return false; }
    }
    var wc := SumSpeed(ports, curr.first, sc);
    var wb := SumSpeed(ports, best.first, sb);
    return wc > wb;
  }

  lemma ChainWithin(ports: seq<Port>, first: int, s: seq<nat>)
    requires Chain(ports, first, s)
    ensures Within(ports, s)
  {
  }

  /** Two aggregators that differ from those of `b` in their flag only compare like them. */
  lemma BeatsRank(b: Bond, policy: Policy, x: nat, y: nat, ax: Agg, ay: Agg)
    requires Whole(b, x) && Whole(b, y) && ax.(active := false) == b.aggs[x].(active := false)
        && ay.(active := false) == b.aggs[y].(active := false)
    ensures Beats(b, policy, x, y) <==>
        Less(Rank(b.ports, ay, b.lists[y], policy), Rank(b.ports, ax, b.lists[x], policy))
  {
    hide ActivePorts, Priority, TotalSpeed, Less;
    assert Rank(b.ports, ay, b.lists[y], policy) == Rank(b.ports, b.aggs[y], b.lists[y], policy);
    assert Rank(b.ports, ax, b.lists[x], policy) == Rank(b.ports, b.aggs[x], b.lists[x], policy);
  }

  /** The flags of the first `n` slaves' aggregators are off. */
  ghost predicate Quiet(b: Bond, aggs: seq<Agg>, n: nat) {
    && |aggs| == |b.aggs| && n <= |b.slaves|
    && forall a :: 0 <= a < |aggs| ==> aggs[a] == if a in b.slaves[..n] then b.aggs[a].(active := false) else b.aggs[a]
  }

  lemma QuietNext(b: Bond, aggs: seq<Agg>, n: nat)
    requires Quiet(b, aggs, n) && n < |b.slaves| && b.slaves[n] < |aggs|
    ensures Quiet(b, aggs[b.slaves[n] := aggs[b.slaves[n]].(active := false)], n + 1)
  {
    assert b.slaves[..n + 1] == b.slaves[..n] + [b.slaves[n]];
  }

  lemma QuietActivated(b: Bond, aggs: seq<Agg>, c: int)
    requires Quiet(b, aggs, |b.slaves|) && (c != NONE ==> 0 <= c < |aggs| && c in b.slaves)
    ensures (if c == NONE then aggs else aggs[c := aggs[c].(active := true)]) == Activate(b, c).aggs
  {
    assert b.slaves[..|b.slaves|] == b.slaves;
  }

  lemma LeadsAt(b: Bond, policy: Policy, prev: int, best: int, n: nat)
    requires Links(b) && WasActive(b, prev) && Leads(b, policy, prev, best, n) && best != NONE
    ensures best >= 0 && best in b.slaves && Linked(b, best)
  {
    hide Usable, Beats, Unbeaten, Linked;
    if !(Stands(b, prev) && best == prev) {
      var m :| 0 <= m < n && Rose(b, policy, prev, best, m);
    }
  }

  lemma LinkedWhole(b: Bond, a: nat)
    requires Linked(b, a)
    ensures Whole(b, a)
  {
  }

  class Team {
    var slaves: seq<nat>
    var ports: seq<Port>
    var aggs: seq<Agg>
    ghost var lists: seq<seq<nat>>

    ghost function View(): Bond
      reads this
    {
      Bond(slaves, ports, aggs, lists)
    }

    ghost predicate Valid()
      reads this
    {
      Good(View())
    }

    /** A bond without slaves, for devices with the given ports. */
    constructor (devices: seq<Port>)
      ensures Valid() && slaves == [] && ports == devices
    {
      slaves, ports, aggs, lists := [], devices, seq(|devices|, i => CLEARED), seq(|devices|, i => []);
    }

    /** The first aggregator whose flag is set. */
    method FindActive() returns (prev: int)
      requires Sized(View())
      ensures WasActive(View(), prev)
    {
      var n := 0;
      while n < |slaves|
        invariant 0 <= n <= |slaves| && forall j :: 0 <= j < n ==> slaves[j] < |aggs| && !aggs[slaves[j]].active
      {
        var a := slaves[n];
        assert a in slaves;
        if aggs[a].active {
          return a;
        }
        n := n + 1;
      }
      return NONE;
    }

    /** The loop over all aggregators: flags off, and the best one found. */
    method Scan(policy: Policy, prev: int) returns (best: int)
      requires Links(View()) && WasActive(View(), prev)
      modifies this`aggs
      ensures Leads(old(View()), policy, prev, best, |slaves|) && Quiet(old(View()), aggs, |slaves|)
    {
      hide Leads, Less, Rank, Linked, ActivePorts, DeviceUp;
      ghost var b := View();
      best := NONE;
      if prev != NONE {
        assert Linked(b, prev);
        LinkedChain(b, prev);
        var up := SomeDeviceUp(ports, aggs[prev].first, lists[prev]);
        if up {
          best := prev;
        }
      }
      LeadsStart(b, policy, prev, best);
      var n := 0;
      while n < |slaves|
        invariant 0 <= n <= |slaves| && Leads(b, policy, prev, best, n) && Quiet(b, aggs, n)
      {
        var a := slaves[n];
        assert Linked(b, a);
        LinkedChain(b, a);
        QuietNext(b, aggs, n);
        aggs := aggs[a := aggs[a].(active := false)];
        var usable := IsUsable(a, b);
        if usable {
          if best == NONE {
            LeadsNext(b, policy, prev, best, n);
            best := a;
          } else {
            LeadsAt(b, policy, prev, best, n);
            LeadsNext(b, policy, prev, best, n);
            var better := Replaces(policy, a, best, b, n + 1);
            if better {
              best := a;
            }
          }
        } else {
          LeadsNext(b, policy, prev, best, n);
        }
        n := n + 1;
      }
    }

    /** Whether aggregator `a` has enabled ports and a device that is up. */
    method IsUsable(a: nat, ghost b: Bond) returns (usable: bool)
      requires Linked(b, a) && ports == b.ports && a < |aggs| && aggs[a].first == b.aggs[a].first
      ensures usable <==> Usable(b, a)
    {
      hide ActivePorts, DeviceUp, Chain;
      LinkedWhole(b, a);
      var active := CountActive(ports, aggs[a].first, b.lists[a]);
      var up := SomeDeviceUp(ports, aggs[a].first, b.lists[a]);
      usable := active > 0 && up;
    }

    method Replaces(policy: Policy, a: nat, best: nat, ghost b: Bond, ghost n: nat) returns (better: bool)
      requires Linked(b, a) && Linked(b, best) && ports == b.ports && Quiet(b, aggs, n)
      ensures better <==> Beats(b, policy, a, best)
    {
      hide ActivePorts, DeviceUp, Chain, Beats, Less, Rank;
      LinkedWhole(b, a);
      LinkedWhole(b, best);
      BeatsRank(b, policy, a, best, aggs[a], aggs[best]);
      better := BetterThan(ports, policy, aggs[a], aggs[best], b.lists[a], b.lists[best]);
    }

    /** Whether the STABLE policy keeps the former active aggregator. */
    method KeepsOld(policy: Policy, prev: int, best: int, ghost b: Bond) returns (keep: bool)
      requires ports == b.ports && Quiet(b, aggs, |b.slaves|)
      requires prev != NONE ==> prev >= 0 && Linked(b, prev)
      requires best != NONE ==> best >= 0 && Linked(b, best)
      ensures keep <==> Stays(b, policy, prev, best)
    {
      hide ActivePorts, Chain;
      keep := false;
      if best != NONE && policy.Stable? && prev != NONE {
        LinkedWhole(b, prev);
        LinkedWhole(b, best);
        var active := CountActive(ports, aggs[prev].first, b.lists[prev]);
        if active > 0 && (Partnered(aggs[prev]) || !Partnered(aggs[best])) {
          keep := !(aggs[prev].params.key == 0 && aggs[best].params.key != 0);
        }
      }
    }

    /** The selection of the active aggregator. */
    method AggSelection(policy: Policy)
      requires Links(View())
      modifies this`aggs
      ensures Election(old(View()), policy, View())
    {
      hide Leads, Linked, Stays, Quiet, Activate;
      ghost var b := View();
      var prev := FindActive();
      var best := Scan(policy, prev);
      if prev != NONE {
        assert Linked(b, prev);
      }
      if best != NONE {
        LeadsAt(b, policy, prev, best, |slaves|);
      }
      var keep := KeepsOld(policy, prev, best, b);
      ghost var c := if keep then prev else best;
      assert Winner(b, policy, prev, c);
      StaysPrev(b, policy, prev, best);
      QuietSize(b, aggs, |slaves|);
      QuietActivated(b, aggs, c);
      if keep {
        best := NONE;
        aggs := aggs[prev := aggs[prev].(active := true)];
      }
      if best != NONE && best == prev {
        best := NONE;
        aggs := aggs[prev := aggs[prev].(active := true)];
      }
      if best != NONE {
        aggs := aggs[best := aggs[best].(active := true)];
      }
      ActivateIs(b, c, View());
    }

    /** Walks the list of aggregator `a` in search of port `p`, keeping the port before it. */
    method Find(a: nat, p: nat) returns (found: bool, last: int, ghost i: nat)
      requires Linked(View(), a)
      ensures found <==> p in lists[a]
      ensures found ==> i < |lists[a]| && lists[a][i] == p && last == if i == 0 then NONE else lists[a][i - 1]
    {
      ghost var s := lists[a];
      var port := aggs[a].first;
      last, i := NONE, 0;
      while port != NONE
        invariant 0 <= i <= |s| && port == At(s, i) && p !in s[..i] && last == if i == 0 then NONE else s[i - 1]
        decreases |s| - i
      {
        assert Link(ports, s, i);
        if port == p {
          return true, last, i;
        }
        last, port, i := port, ports[port].next, i + 1;
      }
      return false, last, i;
    }

    /** Port `p`, found on the list of aggregator `a` after port `last`, is unlinked; what is
        left of the aggregator is cleared once it has no port. */
    method Unlink(a: nat, p: nat, last: int, ghost i: nat)
      requires Linked(View(), a) && i < |lists[a]| && lists[a][i] == p
          && last == if i == 0 then NONE else lists[a][i - 1]
      modifies this`ports, this`aggs, this`lists
      ensures View() == Remove(old(View()), a, i)
    {
      hide Linked, Without;
      ChainMembers(View(), a);
      LinkedChain(View(), a);
      hide Chain, Whole;
      var agg := aggs[a].(num := aggs[a].num - 1);
      if last == NONE {
        agg := agg.(first := ports[p].next);
      } else {
        ports := ports[last := ports[last].(next := ports[p].next)];
      }
      aggs := aggs[a := if agg.first == NONE then CLEARED else agg];
      lists := lists[a := Without(lists[a], i)];
    }

    /** Port `p` leaves its aggregator, if it has one. */
    method Detach(p: nat)
      requires Valid() && p in slaves && !ports[p].selected
      modifies this`ports, this`aggs, this`lists
      ensures Valid() && Detaches(old(View()), p, View())
    {
      hide Linked, Placed, OneActive;
      ghost var b := View();
      var a := ports[p].agg;
      if a != NONE {
        PlacedOn(b, p);
        var found, last, i := Find(a, p);
        LinkedChain(b, a);
        Unlink(a, p, last, i);
        ports := ports[p := ports[p].(agg := NONE, next := NONE)];
        assert OnList(b, a, i, p);
        assert View() == Unhook(Remove(b, a, i), p);
      }
      DetachKeeps(b, p, View());
    }

    /** The first aggregator that suits port `p`, or else the first free one. */
    method FindTarget(p: nat) returns (k: int)
      requires Valid() && p in slaves
      ensures k == NONE ==> forall j :: 0 <= j < |slaves| ==> !Free(View(), slaves[j])
      ensures k != NONE ==> 0 <= k < |slaves| && TargetAt(View(), p, k)
    {
      hide Linked, Placed, OneActive;
      var n, free := 0, NONE;
      while n < |slaves|
        invariant 0 <= n <= |slaves| && (forall j :: 0 <= j < n ==> !Suits(View(), p, slaves[j]))
        invariant if free == NONE then forall j :: 0 <= j < n ==> !Free(View(), slaves[j])
                  else 0 <= free < n && Free(View(), slaves[free]) && forall j :: 0 <= j < free ==>
                      !Free(View(), slaves[j])
      {
        var a := slaves[n];
        assert Linked(View(), a);
        LinkedChain(View(), a);
        if aggs[a].first == NONE {
          if free == NONE {
            free := n;
          }
        } else if aggs[a].params == ports[p].params && Partnered(aggs[a]) && !aggs[a].individual {
          return n;
        }
        n := n + 1;
      }
      return free;
    }

    /** The selection logic: port `p` is attached to an aggregator, and the active one is chosen anew. */
    method SelectPort(p: nat, policy: Policy)
      requires Valid() && p in slaves
      modifies this`ports, this`aggs, this`lists
      ensures Valid() && Selects(old(View()), p, policy, View())
    {
      hide Linked, Placed, OneActive, Detaches, Election, TargetAt, Free;
      ghost var b := View();
      if ports[p].selected {
        return;
      }
      Detach(p);
      ghost var d := View();
      DetachKeeps(b, p, d);
      var k := FindTarget(p);
      FreeExists(d, p);
      var a := slaves[k];
      Join(p, a, k);
      JoinKeeps(d, p, View());
      ghost var c := View();
      AggSelection(policy);
      ElectionKeeps(c, policy, View(), NONE);
    }

    /** Port `p` becomes the first of aggregator `a`. */
    method Join(p: nat, a: nat, ghost k: nat)
      requires Sized(View()) && p in slaves && TargetAt(View(), p, k) && slaves[k] == a && ports[p].next == NONE
      modifies this`ports, this`aggs, this`lists
      ensures Joins(old(View()), p, View()) && slaves == old(slaves)
    {
      ghost var b := View();
      assert a in b.slaves;
      if aggs[a].first == NONE {
        aggs := aggs[a := aggs[a].(individual := ports[p].params.key % 2 == 0, params := ports[p].params)];
      } else {
        ports := ports[p := ports[p].(next := aggs[a].first)];
      }
      aggs := aggs[a := aggs[a].(first := p, num := aggs[a].num + 1)];
      ports := ports[p := ports[p].(agg := a, selected := true)];
      lists := lists[a := [p] + lists[a]];
      assert View() == Attach(b, p, b.slaves[k]);
    }

    /** The first aggregator with no port but that of the leaving slave `s`. */
    method FindSpare(s: nat) returns (k: nat)
      requires Valid() && s in slaves && lists[s] != [] && lists[s] != [s]
      ensures k < |slaves| && SpareAt(View(), s, k) && slaves[k] != s
    {
      hide Linked, Placed, OneActive, Spare;
      ReplacementExists(View(), s);
      ghost var m: nat :| SpareAt(View(), s, m) && slaves[m] != s;
      k := 0;
      while true
        invariant 0 <= k <= m && forall j :: 0 <= j < k ==> !Spare(View(), slaves[j], s)
        decreases m - k
      {
        var a := slaves[k];
        assert Linked(View(), a);
        LinkedChain(View(), a);
        SpareMeans(View(), s, a);
        if aggs[a].first == NONE || (aggs[a].first == s && ports[s].next == NONE) {
          assert k == m;
          return;
        }
        k := k + 1;
      }
    }

    /** Aggregator `a` takes over the parameters and the ports of aggregator `own`. */
    method MovePorts(own: nat, a: nat)
      requires Linked(View(), own) && a < |aggs| == |lists|
      modifies this`ports, this`aggs, this`lists
      ensures View() == Move(old(View()), own, a)
    {
      hide Linked, Whole, Distinct;
      ghost var b := View();
      LinkedChain(b, own);
      ghost var s := lists[own];
      aggs := aggs[a := aggs[own]];
      var port := aggs[own].first;
      ghost var i := 0;
      while port != NONE
        modifies this`ports
        invariant 0 <= i <= |s| && port == At(s, i) && |ports| == |b.ports|
        invariant forall p :: 0 <= p < |ports| ==> ports[p] == if p in s[..i] then b.ports[p].(agg := a) else b.ports[p]
        decreases |s| - i
      {
        assert s[..i + 1] == s[..i] + [s[i]] && Link(b.ports, s, i);
        ports := ports[port := ports[port].(agg := a)];
        port, i := ports[port].next, i + 1;
      }
      assert s[..|s|] == s;
      aggs := aggs[own := CLEARED];
      lists := lists[a := lists[own]][own := []];
    }

    /** The ports on the aggregator of the leaving slave `s` get another one. */
    method EmptyOwn(s: nat, policy: Policy)
      requires Valid() && s in slaves
      modifies this`ports, this`aggs, this`lists
      ensures Empties(old(View()), s, policy, View())
    {
      hide Linked, Placed, OneActive, Election;
      ghost var b := View();
      assert Linked(b, s);
      LinkedChain(b, s);
      if aggs[s].first == NONE {
        return;
      }
      OnlyMeans(b, s);
      if aggs[s].first != s || ports[s].next != NONE {
        var k := FindSpare(s);
        var a := slaves[k];
        assert Linked(b, a);
        LinkedChain(b, a);
        var needed := aggs[a].first == s && aggs[a].active;
        SpareMeans(b, s, a);
        MovePorts(s, a);
        Moved(b, s, a, s);
        ghost var c := View();
        if needed {
          AggSelection(policy);
        }
        assert ElectsIf(c, needed, policy, View());
      } else {
        var needed := aggs[s].active;
        aggs := aggs[s := CLEARED];
        lists := lists[s := []];
        assert View() == Clear(b, s);
        NotSpare(b, s);
        Cleared(b, s);
        if needed {
          AggSelection(policy);
        }
      }
    }

    /** The port of the leaving slave `s`, found on the list of aggregator `a`, is taken off. */
    method Release(a: nat, s: nat, last: int, policy: Policy, ghost i: nat)
      requires GoodBut(View(), s) && a in slaves && Linked(View(), a) && i < |lists[a]| && lists[a][i] == s
      requires last == if i == 0 then NONE else lists[a][i - 1]
      modifies this`ports, this`aggs, this`lists
      ensures slaves == old(slaves) && Frees(old(View()), s, policy, View()) && GoodBut(View(), s) && Loose(View(), s)
    {
      hide Linked, Placed, OneActive, Election, ActivePorts, Remove, Frees, Loose;
      ghost var b := View();
      LinkedChain(b, a);
      var was := aggs[a].active;
      Unlink(a, s, last, i);
      Removed(b, a, i, s);
      ghost var c := View();
      assert c.slaves == b.slaves;
      assert Linked(c, a);
      LinkedChain(c, a);
      var active := CountActive(ports, aggs[a].first, lists[a]);
      if active == 0 && was {
        AggSelection(policy);
      }
      FreedBy(b, a, i, s, policy, View());
    }

    /** The port of the leaving slave `s` is looked for on every list. */
    method FreePort(s: nat, policy: Policy)
      requires GoodBut(View(), s) && s in slaves
      modifies this`ports, this`aggs, this`lists
      ensures slaves == old(slaves) && Frees(old(View()), s, policy, View())
    {
      hide Linked, Placed, OneActive, Frees, Loose, GoodBut;
      ghost var b := View();
      ghost var freed := false;
      var n := 0;
      while n < |slaves|
        invariant slaves == b.slaves && 0 <= n <= |slaves| && GoodBut(View(), s)
        invariant if freed then Frees(b, s, policy, View()) && Loose(View(), s)
                  else View() == b && forall j :: 0 <= j < n ==> slaves[j] < |lists| && s !in lists[slaves[j]]
      {
        var a := slaves[n];
        LinkedIn(View(), s, a);
        LinkedChain(View(), a);
        var found, last, i := Find(a, s);
        if found {
          LooseMeans(View(), s, a);
          Release(a, s, last, policy, i);
          freed := true;
        }
        n := n + 1;
      }
      if !freed {
        LooseAll(b, s, policy);
      }
    }

    /** Slave `s` leaves the bond. */
    method Unbind(s: nat, policy: Policy)
      requires Valid()
      modifies this
      ensures Valid() && Step(old(View()), Action.Unbind(s, policy), View())
    {
      hide Linked, Placed, OneActive, Empties, Frees, Election;
      ghost var b := View();
      var n := 0;
      while n < |slaves| && slaves[n] != s
        invariant 0 <= n <= |slaves| && s !in slaves[..n] && View() == b
      {
        n := n + 1;
      }
      if n == |slaves| {
        return;
      }
      EmptyOwn(s, policy);
      ghost var c := View();
      EmptiesKeeps(b, s, policy, c);
      FreePort(s, policy);
      ghost var d := View();
      slaves := Without(slaves, n);
      assert View() == Drop(d, n);
      assert Unbinds(b, s, policy, View());
      UnbindKeeps(b, s, policy, View());
    }

    /** Slave `s` joins the bond with a fresh port and an empty aggregator. */
    method Bind(s: nat, speed: nat, up: bool, params: Params)
      requires Valid() && s < |ports|
      modifies this
      ensures Valid() && exists port :: Step(old(View()), Action.Bind(s, port), View())
      ensures s in slaves && (s in old(slaves) ==> View() == old(View()))
    {
      hide Linked, Placed, OneActive;
      ghost var b := View();
      var port := Port(NONE, NONE, false, true, up, speed, 0xff, params);
      if s !in slaves {
        slaves := slaves + [s];
        ports, aggs := ports[s := port], aggs[s := CLEARED];
        lists := lists[s := []];
        assert View() == Add(b, s, port);
      }
      assert Step(b, Action.Bind(s, port), View());
      StepKeeps(b, Action.Bind(s, port), View());
    }
  }

  lemma FreedBy(b: Bond, a: nat, i: nat, s: nat, policy: Policy, r: Bond)
    requires GoodBut(b, s) && a in b.slaves && Linked(b, a) && i < |b.lists[a]| && b.lists[a][i] == s
    requires var c := Remove(b, a, i);
             Whole(c, a) && ElectsIf(c, ActivePorts(c.ports, c.lists[a]) == 0 && b.aggs[a].active, policy, r)
    ensures Frees(b, s, policy, r) && GoodBut(r, s) && Loose(r, s)
  {
    hide Linked, Placed, OneActive, Remove, ElectsIf, ActivePorts;
    LinkedChain(b, a);
    var c := Remove(b, a, i);
    Removed(b, a, i, s);
    ElectsIfKeeps(c, ActivePorts(c.ports, c.lists[a]) == 0 && b.aggs[a].active, policy, r, s);
    assert OnList(b, a, i, s);
  }

  lemma LooseMeans(b: Bond, s: nat, a: nat)
    requires a in b.slaves && a < |b.lists| && s in b.lists[a]
    ensures !Loose(b, s)
  {
  }

  lemma LooseAll(b: Bond, s: nat, policy: Policy)
    requires forall j :: 0 <= j < |b.slaves| ==> b.slaves[j] < |b.lists| && s !in b.lists[b.slaves[j]]
    ensures Frees(b, s, policy, b)
  {
  }

  /** How the code tells that aggregator `a` has no port but `s`. */
  lemma SpareMeans(b: Bond, s: nat, a: nat)
    requires Linked(b, a) && a in b.slaves && s < |b.ports|
    ensures Spare(b, a, s) <==> b.aggs[a].first == NONE || (b.aggs[a].first == s && b.ports[s].next == NONE)
    ensures Spare(b, a, s) && b.lists[a] != [] ==> b.aggs[a].first == s
  {
    var l := b.lists[a];
    assert l != [] ==> Link(b.ports, l, 0);
    if Spare(b, a, s) && l != [] {
      forall k | 0 <= k < |l| ensures l[k] == s {
        assert l[k] in l;
      }
      NotTwice(l, s);
      assert |l| == 1;
    }
  }

  lemma OnlyMeans(b: Bond, s: nat)
    requires Linked(b, s) && s < |b.ports| && b.lists[s] != []
    ensures b.lists[s] == [s] <==> b.aggs[s].first == s && b.ports[s].next == NONE
  {
    assert Link(b.ports, b.lists[s], 0);
  }

  lemma PlacedOn(b: Bond, p: nat)
    requires Good(b) && p in b.slaves && b.ports[p].agg != NONE
    ensures b.ports[p].agg >= 0 && b.ports[p].agg in b.slaves && Linked(b, b.ports[p].agg)
        && p in b.lists[b.ports[p].agg]
  {
    assert Placed(b, p);
  }

  lemma ActivateIs(b: Bond, c: int, r: Bond)
    requires r.slaves == b.slaves && r.ports == b.ports && r.lists == b.lists && r.aggs == Activate(b, c).aggs
    ensures r == Activate(b, c)
  {
  }

  lemma StaysPrev(b: Bond, policy: Policy, prev: int, best: int)
    ensures Stays(b, policy, prev, best) ==> prev >= 0
  {
  }

  lemma QuietSize(b: Bond, aggs: seq<Agg>, n: nat)
    requires Quiet(b, aggs, n)
    ensures |aggs| == |b.aggs|
  {
  }

  lemma LinkedChain(b: Bond, a: nat)
    requires Linked(b, a)
    ensures a < |b.aggs| && a < |b.lists| && Chain(b.ports, b.aggs[a].first, b.lists[a]) && Whole(b, a)
  {
  }

  lemma LeadsStart(b: Bond, policy: Policy, prev: int, best: int)
    requires best == if Stands(b, prev) then prev else NONE
    ensures Leads(b, policy, prev, best, 0)
  {
  }
}

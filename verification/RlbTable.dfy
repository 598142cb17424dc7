/** The receive hash table, updated in place (servers/bond_alb.c). */
module RlbTable {
  import opened RlbList
  import opened Rlb

  /** One slave as __rlb_next_rx_slave sees it. */
  datatype Slave = Slave(id: int, canTx: bool, speed: nat)

  /** _simple_hash. */
  method HashBytes(bytes: seq<bv8>) returns (hash: bv8)
    ensures hash == SimpleHash(bytes)
  {
    hash := 0;
    var i := 0;
    while i < |bytes|
      invariant 0 <= i <= |bytes| && hash == SimpleHash(bytes[..i])
    {
      assert bytes[..i + 1][..i] == bytes[..i];
      hash := hash ^ bytes[i];
      i := i + 1;
    }
    assert bytes[..i] == bytes;
  }

  method HashOf(ip: Ip) returns (h: nat)
    ensures h == Hash(ip) && h < SIZE
  {
    var hash := HashBytes(ip);
    h := hash as nat;
  }

  ghost predicate Usable(slaves: seq<Slave>, i: int) {
    0 <= i < |slaves| && slaves[i].canTx
  }

  /** The first usable slave of greatest speed among `lo..hi`, -1 if none. */
  ghost predicate Fastest(slaves: seq<Slave>, lo: nat, hi: nat, b: int) {
    if b == -1 then forall i :: lo <= i < hi ==> !Usable(slaves, i)
    else
      && lo <= b < hi && Usable(slaves, b)
      && forall i :: lo <= i < hi && Usable(slaves, i) ==>
           slaves[i].speed <= slaves[b].speed && (i < b ==> slaves[i].speed < slaves[b].speed)
  }

  /** __rlb_next_rx_slave: the next slave in turn among the fastest usable ones.  The
      slaves after the current one come first, then the others. */
  method NextRxSlave(slaves: seq<Slave>, current: int) returns (next: int, ghost m: nat)
    ensures next == -1 <==> forall i :: 0 <= i < |slaves| ==> !Usable(slaves, i)
    ensures next != -1 ==> Usable(slaves, next) && forall i :: Usable(slaves, i) ==>
        slaves[i].speed <= slaves[next].speed
    ensures m <= |slaves| && (forall i :: 0 <= i < m - 1 ==> !(Usable(slaves, i) && slaves[i].id == current))
    ensures m < |slaves| ==> m > 0 && Usable(slaves, m - 1) && slaves[m - 1].id == current
    ensures next != -1 ==>
              forall i :: Usable(slaves, i) && slaves[i].speed == slaves[next].speed ==>
                if next >= m then i < m || next <= i else next <= i < m
  {
    var before, after, found, n := -1, -1, false, 0;
    m := 0;
    while n < |slaves|
      invariant 0 <= n <= |slaves| && m <= n && (!found ==> m == n)
      invariant found ==> m > 0 && Usable(slaves, m - 1) && slaves[m - 1].id == current
      invariant forall i :: 0 <= i < m - 1 || (!found && 0 <= i < m) ==> !(Usable(slaves, i) && slaves[i].id == current)
      invariant Fastest(slaves, 0, m, before) && Fastest(slaves, m, n, after)
    {
      var s := slaves[n];
      if s.canTx {
        if !found {
          if before == -1 || slaves[before].speed < s.speed {
            before := n;
          }
        } else {
          if after == -1 || slaves[after].speed < s.speed {
            after := n;
          }
        }
      }
      if !found {
        m := n + 1;
      }
      if s.canTx && s.id == current {
        found := true;
      }
      n := n + 1;
    }
    next := after;
    if after == -1 || (before != -1 && slaves[after].speed < slaves[before].speed) {
      next := before;
    }
  }

  class RxTable {
    const table: array<Entry>
    var usedHead: nat
    ghost var used: seq<nat>
    ghost var lists: seq<seq<nat>>

    function Value(): Rx
      reads this, table
    {
      Rx(table[..], usedHead)
    }

    ghost predicate Valid()
      reads this, table
    {
      Good(Value(), used, lists)
    }

    /** rlb_initialize. */
    constructor ()
      ensures Valid() && fresh(table) && used == []
    {
      table := new Entry[SIZE](_ => Entry(NULL, NULL, NULL, NULL, NULL, false,
          Client([], [], 0, 0, NO_SLAVE, 0, false)));
      usedHead := NULL;
      used := [];
      lists := seq(SIZE, _ => []);
    }

    method DeleteDst(x: nat)
      requires table.Length == SIZE && x < SIZE
      requires (table[x].usedPrev == NULL || table[x].usedPrev < SIZE)
          && (table[x].usedNext == NULL || table[x].usedNext < SIZE)
      modifies this`usedHead, table
      ensures table[..] == DstDeleted(old(table[..]), x) && usedHead == DstHead(old(table[..]), old(usedHead), x)
    {
      var n, p := table[x].usedNext, table[x].usedPrev;
      if x == usedHead {
        usedHead := n;
      }
      if p != NULL {
        table[p] := table[p].(usedNext := n);
      }
      if n != NULL {
        table[n] := table[n].(usedPrev := p);
      }
      table[x] := table[x].(usedNext := NULL, usedPrev := NULL, taken := false,
          c := table[x].c.(slave := NO_SLAVE, vlan := 0));
    }

    method SrcUnlink(x: nat)
      requires table.Length == SIZE && x < SIZE
      requires (table[x].srcPrev == NULL || table[x].srcPrev < SIZE)
          && (table[x].srcNext == NULL || table[x].srcNext < SIZE)
      modifies table
      ensures table[..] == SrcUnlinked(old(table[..]), x)
    {
      var n, p := table[x].srcNext, table[x].srcPrev;
      table[x] := table[x].(srcNext := NULL, srcPrev := NULL);
      if n != NULL {
        table[n] := table[n].(srcPrev := p);
      }
      if p == NULL {
        return;
      }
      if table[p].srcFirst == x {
        table[p] := table[p].(srcFirst := n);
      } else {
        table[p] := table[p].(srcNext := n);
      }
    }

    method SrcLink(h: nat, x: nat)
      requires table.Length == SIZE && h < SIZE && x < SIZE && (table[h].srcFirst == NULL || table[h].srcFirst < SIZE)
      modifies table
      ensures table[..] == SrcLinked(old(table[..]), h, x)
    {
      table[x] := table[x].(srcPrev := h);
      var n := table[h].srcFirst;
      table[x] := table[x].(srcNext := n);
      if n != NULL {
        table[n] := table[n].(srcPrev := x);
      }
      table[h] := table[h].(srcFirst := x);
    }

    /** rlb_delete_table_entry: an assigned entry leaves both lists. */
    method DeleteEntry(x: nat)
      requires Valid() && x < SIZE && table[x].taken
      modifies this, table
      ensures Valid() && Value() == Deleted(old(Value()), x)
      ensures used == Survivors(old(used), {x}) && lists == SurvivorsOf(old(lists), {x})
    {
      ghost var r := Value();
      LinksInTable(r, used, lists, x);
      DstFields(r.t, x);
      DeletedGood(r, used, lists, x);
      DeleteDst(x);
      SrcUnlink(x);
      used, lists := Survivors(used, {x}), SurvivorsOf(lists, {x});
    }

    /** rlb_purge_src_ip: walks one bucket and deletes while walking; the result is that
        of looking at every entry of the table. */
    method PurgeSrcIp(ip: Ip, mac: nat)
      requires Valid()
      modifies this, table
      ensures Valid() && Value() == Scanned(BySource(ip, mac), old(Value()), SIZE)
    {
      hide Good, Purged, Survivors, Deleted, Scanned, Hash;
      ghost var r0, used0, lists0 := Value(), used, lists;
      GoodSize(r0, used0, lists0);
      var h := HashOf(ip);
      ghost var test, s, k, gone := BySource(ip, mac), lists[h], 0, {};
      WalkStart(r0, used0, lists0, test, s);
      SourceList(r0, used0, lists0, h);
      var index := table[h].srcFirst;
      while index != NULL
        invariant 0 <= k <= |s| && index == At(s, k)
        invariant Walked(r0, used0, lists0, test, s, k, gone)
        decreases |s| - k
      {
        NextInSource(r0, Value(), used0, lists0, gone, h, k);
        Visit(r0, Value(), used0, lists0, gone, test, s, k);
        var next := table[index].srcNext;
        if table[index].c.ipSrc == ip && table[index].c.macSrc != mac {
          gone := DeleteVisited(index, r0, used0, lists0, test, s, k, gone);
        }
        index := next;
        k := k + 1;
      }
      AllInSource(r0, used0, lists0, ip, mac);
      WalkEnds(r0, Value(), used0, lists0, gone, test, s, k);
    }

    /** rlb_clear_vlan: walks the used list and deletes while walking. */
    method ClearVlan(vlan: nat)
      requires Valid()
      modifies this, table
      ensures Valid() && Value() == Scanned(ByVlan(vlan), old(Value()), SIZE)
    {
      hide Good, Purged, Survivors, Deleted, Scanned;
      ghost var r0, used0, lists0 := Value(), used, lists;
      GoodSize(r0, used0, lists0);
      ghost var test, s, k, gone := ByVlan(vlan), used, 0, {};
      WalkStart(r0, used0, lists0, test, s);
      UsedList(r0, used0, lists0);
      var index := usedHead;
      while index != NULL
        invariant 0 <= k <= |s| && index == At(s, k)
        invariant Walked(r0, used0, lists0, test, s, k, gone)
        decreases |s| - k
      {
        NextInUsed(r0, Value(), used0, lists0, gone, k);
        Visit(r0, Value(), used0, lists0, gone, test, s, k);
        var next := table[index].usedNext;
        if table[index].c.vlan == vlan {
          gone := DeleteVisited(index, r0, used0, lists0, test, s, k, gone);
        }
        index := next;
        k := k + 1;
      }
      AllInUsed(r0, used0, lists0, test);
      WalkEnds(r0, Value(), used0, lists0, gone, test, s, k);
    }

    /** The part of rlb_choose_channel that deals with the entry's present client. */
    method Revisit(h: nat, arp: Arp, active: int)
      requires h < table.Length
      modifies table
      ensures table[..] == old(table[..])[h := Revisited(old(table[h]), arp, active)]
    {
      var e := table[h];
      if e.taken {
        if e.c.ipSrc == arp.ipSrc && e.c.ipDst == arp.ipDst {
          if arp.macDst != BROADCAST {
            table[h] := table[h].(c := table[h].c.(macDst := arp.macDst));
          }
          table[h] := table[h].(c := table[h].c.(macSrc := arp.macSrc));
        } else if active != NO_SLAVE && e.c.slave != active {
          table[h] := table[h].(c := table[h].c.(slave := active));
        }
      }
    }

    /** Moves the entry to the list of the new source address; a free entry is on no
        list, and unlinking it does nothing. */
    method Relink(g: nat, x: nat)
      requires Valid() && g < SIZE && x < SIZE
      modifies table
      ensures table[..] == Relinked(old(table[..]), g, x)
    {
      LinksInTable(Value(), used, lists, x);
      UnlinkedInTable(Value(), used, lists, g, x);
      SrcUnlink(x);
      SrcLink(g, x);
    }

    method PushUsed(x: nat)
      requires table.Length == SIZE && x < SIZE && (usedHead == NULL || usedHead < SIZE)
      modifies this`usedHead, table
      ensures table[..] == UsedLinked(old(table[..]), old(usedHead), x) && usedHead == x
    {
      var prevHead := usedHead;
      usedHead := x;
      table[x] := table[x].(usedNext := prevHead);
      if prevHead != NULL {
        table[prevHead] := table[prevHead].(usedPrev := x);
      }
      table[x] := table[x].(taken := true);
    }

    /** rlb_choose_channel; `next` is what __rlb_next_rx_slave returns. */
    method ChooseChannel(arp: Arp, active: int, next: int, vlan: nat) returns (slave: int)
      requires Valid()
      modifies this, table
      ensures Valid() && old(|Value().t|) == SIZE == old(|lists|)
      ensures Value() == Chosen(old(Value()), arp, active, next, vlan)
      ensures used == ChosenUsed(old(Value()), old(used), arp, next)
      ensures lists == ChosenLists(old(Value()), old(lists), arp, next)
      ensures slave == if Settled(old(table[Hash(arp.ipDst)]), arp) then old(table[Hash(arp.ipDst)]).c.slave else next
    {
      hide Hash, UsedLinked, Relinked, Survivors, SurvivorsOf;
      ghost var r0, used0, lists0 := Value(), used, lists;
      GoodSize(r0, used0, lists0);
      ChosenGood(r0, used0, lists0, arp, active, next, vlan);
      var h := HashOf(arp.ipDst);
      var e := table[h];
      RevisitedGood(r0, used0, lists0, arp, active);
      Revisit(h, arp, active);
      if Settled(e, arp) {
        return e.c.slave;
      }
      slave := next;
      if next != NO_SLAVE {
        if !(e.taken && e.c.ipSrc == arp.ipSrc) {
          var g := HashOf(arp.ipSrc);
          Relink(g, h);
        }
        table[h] := table[h].(c := Client(arp.ipSrc, arp.ipDst, arp.macSrc, arp.macDst, next, vlan,
            IsValidMac(arp.macDst)));
        if !e.taken {
          PushUsed(h);
        }
      }
      used, lists := ChosenUsed(r0, used0, arp, next), ChosenLists(r0, lists0, arp, next);
    }

    /** The walk along `s` has visited `k` entries and deleted those of them that meet
        the test. */
    ghost predicate Walked(r0: Rx, used0: seq<nat>, lists0: seq<seq<nat>>, test: Test, s: seq<nat>, k: nat,
        gone: set<nat>)
      requires |r0.t| == SIZE
      reads this, table
    {
      && Valid() && used == Survivors(used0, gone) && lists == SurvivorsOf(lists0, gone)
      && Purged(r0, Value(), used0, lists0, gone) && k <= |s| && gone == DoomedIn(test, r0.t, s[..k])
    }

    method DeleteVisited(x: nat, ghost r0: Rx, ghost used0: seq<nat>, ghost lists0: seq<seq<nat>>, ghost test: Test,
                         ghost s: seq<nat>, ghost k: nat, ghost gone: set<nat>) returns (ghost gone': set<nat>)
      requires |r0.t| == SIZE && Good(r0, used0, lists0) && k < |s| && x == s[k] < SIZE
      requires Walked(r0, used0, lists0, test, s, k, gone) && r0.t[x].taken && x !in gone
      requires DoomedIn(test, r0.t, s[..k + 1]) == gone + {x}
      modifies this, table
      ensures Walked(r0, used0, lists0, test, s, k + 1, gone')
    {
      hide Survivors, Deleted;
      PurgedTaken(r0, Value(), used0, lists0, gone, x, test);
      PurgedMore(r0, Value(), used0, lists0, gone, x);
      PurgedLists(used0, lists0, gone, x);
      PurgedSize(r0, Value(), used0, lists0, gone);
      DeleteEntry(x);
      gone' := gone + {x};
    }
  }

  // ----- walks -----

  ghost function DoomedIn(test: Test, t: Table, s: seq<nat>): set<nat> {
    set x | x in s && x < |t| && Doomed(test, t[x])
  }

  lemma LinksInTable(r: Rx, used: seq<nat>, lists: seq<seq<nat>>, x: nat)
    requires Good(r, used, lists) && x < SIZE
    ensures (r.t[x].usedPrev == NULL || r.t[x].usedPrev < SIZE) && (r.t[x].usedNext == NULL || r.t[x].usedNext < SIZE)
    ensures (r.t[x].srcPrev == NULL || r.t[x].srcPrev < SIZE) && (r.t[x].srcNext == NULL || r.t[x].srcNext < SIZE)
    ensures r.t[x].srcFirst == NULL || r.t[x].srcFirst < SIZE
  {
    assert Bucket(r.t, lists, x);
    ListInTable(r.t, lists, x);
    UsedInTable(r.t, r.head, used);
    if x in used {
      var i :| 0 <= i < |used| && used[i] == x;
      assert Cell(Used, r.t, used, NULL, i);
    }
    if !OnNone(lists, x) {
      var h :| 0 <= h < |lists| && x in lists[h];
      var i :| 0 <= i < |lists[h]| && lists[h][i] == x;
      ListInTable(r.t, lists, h);
      assert Bucket(r.t, lists, h) && Cell(Src, r.t, lists[h], h, i);
    }
  }

  /** After unlinking an entry, a bucket still starts with an entry of the table. */
  lemma UnlinkedInTable(r: Rx, used: seq<nat>, lists: seq<seq<nat>>, g: nat, x: nat)
    requires Good(r, used, lists) && g < SIZE && x < SIZE
    ensures var f := SrcUnlinked(r.t, x)[g].srcFirst; f == NULL || f < SIZE
  {
    LinksInTable(r, used, lists, x);
    LinksInTable(r, used, lists, g);
  }

  lemma RevisitedGood(r: Rx, used: seq<nat>, lists: seq<seq<nat>>, arp: Arp, active: int)
    requires Good(r, used, lists)
    ensures |r.t| == SIZE && (r.head == NULL || r.head < SIZE)
    ensures var h := Hash(arp.ipDst); Good(Rx(r.t[h := Revisited(r.t[h], arp, active)], r.head), used, lists)
  {
    hide Hash;
    var h := Hash(arp.ipDst);
    var e := r.t[h];
    UsedInTable(r.t, r.head, used);
    ClientChanged(r, used, lists, h, Revisited(e, arp, active).c);
    assert Revisited(e, arp, active) == e.(c := Revisited(e, arp, active).c);
  }

  /** A list whose elements are assigned entries. */
  ghost predicate Assigned(r: Rx, s: seq<nat>) {
    Distinct(s) && forall x :: x in s ==> x < |r.t| && r.t[x].taken
  }

  lemma SourceList(r: Rx, used: seq<nat>, lists: seq<seq<nat>>, h: nat)
    requires Good(r, used, lists) && h < SIZE
    ensures Assigned(r, lists[h]) && r.t[h].srcFirst == At(lists[h], 0)
  {
    assert Bucket(r.t, lists, h);
    ListInTable(r.t, lists, h);
  }

  lemma UsedList(r: Rx, used: seq<nat>, lists: seq<seq<nat>>)
    requires Good(r, used, lists)
    ensures Assigned(r, used) && r.head == At(used, 0)
  {
    UsedInTable(r.t, r.head, used);
  }

  lemma WalkStart(r: Rx, used: seq<nat>, lists: seq<seq<nat>>, test: Test, s: seq<nat>)
    requires Good(r, used, lists)
    ensures |r.t| == SIZE && DoomedIn(test, r.t, s[..0]) == {} && Purged(r, r, used, lists, {})
    ensures Survivors(used, {}) == used && SurvivorsOf(lists, {}) == lists
  {
    PurgedNone(r, used, lists);
    AllSurvive(used, {});
    forall h | 0 <= h < |lists| ensures Survivors(lists[h], {}) == lists[h] {
      AllSurvive(lists[h], {});
    }
  }

  /** The walk reads the link to the next entry before it deletes; entries that were
      deleted earlier do not lead it astray. */
  lemma NextInSource(r0: Rx, r: Rx, used: seq<nat>, lists: seq<seq<nat>>, gone: set<nat>, h: nat, k: nat)
    requires Good(r0, used, lists) && Purged(r0, r, used, lists, gone) && h < SIZE && k < |lists[h]|
    requires forall x :: x in gone ==> x in lists[h][..k]
    ensures lists[h][k] < SIZE == |r.t| && r.t[lists[h][k]].srcNext == At(lists[h], k + 1)
  {
    var s, s' := lists[h], SurvivorsOf(lists, gone)[h];
    SourceList(r0, used, lists, h);
    assert s[k] in s;
    var j := SurvivorsNext(s, gone, k);
    assert Bucket(r.t, SurvivorsOf(lists, gone), h);
    assert Cell(Src, r.t, s', h, j);
  }

  lemma NextInUsed(r0: Rx, r: Rx, used: seq<nat>, lists: seq<seq<nat>>, gone: set<nat>, k: nat)
    requires Good(r0, used, lists) && Purged(r0, r, used, lists, gone) && k < |used|
    requires forall x :: x in gone ==> x in used[..k]
    ensures used[k] < SIZE == |r.t| && r.t[used[k]].usedNext == At(used, k + 1)
  {
    UsedList(r0, used, lists);
    assert used[k] in used;
    var j := SurvivorsNext(used, gone, k);
    assert Cell(Used, r.t, Survivors(used, gone), NULL, j);
  }

  /** The entry at which the walk has arrived is still as it was. */
  lemma Visit(r0: Rx, r: Rx, used: seq<nat>, lists: seq<seq<nat>>, gone: set<nat>, test: Test, s: seq<nat>, k: nat)
    requires Good(r0, used, lists) && Purged(r0, r, used, lists, gone) && Assigned(r0, s) && k < |s|
    requires gone == DoomedIn(test, r0.t, s[..k])
    ensures var x := s[k];
            && x < SIZE == |r.t| == |r0.t| && x !in gone && r0.t[x].taken && r.t[x].c == r0.t[x].c
            && DoomedIn(test, r0.t, s[..k + 1]) == gone + if Doomed(test, r0.t[x]) then {x} else {}
  {
    assert s[k] in s && s[..k + 1] == s[..k] + [s[k]];
    PurgedSize(r0, r, used, lists, gone);
    assert s[k] !in s[..k];
  }

  lemma PurgedLists(used: seq<nat>, lists: seq<seq<nat>>, gone: set<nat>, x: nat)
    ensures Survivors(Survivors(used, gone), {x}) == Survivors(used, gone + {x})
    ensures SurvivorsOf(SurvivorsOf(lists, gone), {x}) == SurvivorsOf(lists, gone + {x})
  {
    SurvivorsTwice(used, gone, {x});
    forall h | 0 <= h < |lists| ensures Survivors(SurvivorsOf(lists, gone)[h], {x}) == Survivors(lists[h], gone + {x}) {
      SurvivorsTwice(lists[h], gone, {x});
    }
  }

  /** Every entry with the source address is on the list of one bucket. */
  lemma AllInSource(r: Rx, used: seq<nat>, lists: seq<seq<nat>>, ip: Ip, mac: nat)
    requires Good(r, used, lists)
    ensures |r.t| == SIZE == |lists|
    ensures DoomedIn(BySource(ip, mac), r.t, lists[Hash(ip)]) == DoomedBelow(BySource(ip, mac), r.t, SIZE)
  {
    var test, s := BySource(ip, mac), lists[Hash(ip)];
    forall x | 0 <= x < SIZE && Doomed(test, r.t[x]) ensures x in s {
      assert x in lists[Hash(r.t[x].c.ipSrc)];
    }
  }

  lemma AllInUsed(r: Rx, used: seq<nat>, lists: seq<seq<nat>>, test: Test)
    requires Good(r, used, lists)
    ensures |r.t| == SIZE && DoomedIn(test, r.t, used) == DoomedBelow(test, r.t, SIZE)
  {
    forall x | 0 <= x < SIZE && Doomed(test, r.t[x]) ensures x in used {
    }
  }

  lemma NotNull(r: Rx, s: seq<nat>, k: nat)
    requires Assigned(r, s) && |r.t| == SIZE
    ensures k < |s| ==> At(s, k) != NULL
  {
    if k < |s| {
      assert s[k] in s;
    }
  }

  lemma WalkEnds(r0: Rx, r: Rx, used: seq<nat>, lists: seq<seq<nat>>, gone: set<nat>, test: Test, s: seq<nat>, k: nat)
    requires Good(r0, used, lists) && Purged(r0, r, used, lists, gone) && Assigned(r0, s)
    requires k <= |s| && At(s, k) == NULL && |r0.t| == SIZE && gone == DoomedIn(test, r0.t, s[..k])
    requires DoomedIn(test, r0.t, s) == DoomedBelow(test, r0.t, SIZE)
    ensures r == Scanned(test, r0, SIZE)
  {
    NotNull(r0, s, k);
    assert s[..k] == s;
    SameAsScan(test, r0, r, used, lists, gone);
  }
}

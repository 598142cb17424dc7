/** Operations on the receive hash table (servers/bond_alb.c) as values, and what all
    runs of them keep. */
module Rlb {
  import opened RlbList

  /** The table and the head of the used list. */
  datatype Rx = Rx(t: Table, head: nat)

  ghost predicate Good(r: Rx, used: seq<nat>, lists: seq<seq<nat>>) {
    Valid(r.t, r.head, used, lists)
  }

  // ----- surviving elements of a list -----

  function Survivors(s: seq<nat>, gone: set<nat>): seq<nat> {
    if s == [] then []
    else if s[|s| - 1] in gone then Survivors(s[..|s| - 1], gone)
    else Survivors(s[..|s| - 1], gone) + [s[|s| - 1]]
  }

  function SurvivorsOf(lists: seq<seq<nat>>, gone: set<nat>): (r: seq<seq<nat>>)
    ensures |r| == |lists| && forall h :: 0 <= h < |lists| ==> r[h] == Survivors(lists[h], gone)
  {
    if lists == [] then []
    else SurvivorsOf(lists[..|lists| - 1], gone) + [Survivors(lists[|lists| - 1], gone)]
  }

  lemma {:induction false} SurvivorsMembers(s: seq<nat>, gone: set<nat>)
    ensures forall x :: x in Survivors(s, gone) <==> x in s && x !in gone
  {
    if s != [] {
      SurvivorsMembers(s[..|s| - 1], gone);
      assert s == s[..|s| - 1] + [s[|s| - 1]];
    }
  }

  lemma {:induction false} SurvivorsConcat(a: seq<nat>, b: seq<nat>, gone: set<nat>)
    ensures Survivors(a + b, gone) == Survivors(a, gone) + Survivors(b, gone)
  {
    if b == [] {
      assert a + b == a;
    } else {
      SurvivorsConcat(a, b[..|b| - 1], gone);
      assert (a + b)[..|a + b| - 1] == a + b[..|b| - 1];
    }
  }

  lemma SurvivorsSnoc(s: seq<nat>, x: nat, gone: set<nat>)
    ensures Survivors(s + [x], gone) == if x in gone then Survivors(s, gone) else Survivors(s, gone) + [x]
  {
    assert (s + [x])[..|s|] == s;
  }

  lemma {:induction false} AllSurvive(s: seq<nat>, gone: set<nat>)
    requires forall x :: x in s ==> x !in gone
    ensures Survivors(s, gone) == s
  {
    if s != [] {
      AllSurvive(s[..|s| - 1], gone);
    }
  }

  lemma {:induction false} SurvivorsTwice(s: seq<nat>, a: set<nat>, b: set<nat>)
    ensures Survivors(Survivors(s, a), b) == Survivors(s, a + b)
  {
    if s != [] {
      var l := s[|s| - 1];
      SurvivorsTwice(s[..|s| - 1], a, b);
      if l !in a {
        SurvivorsSnoc(Survivors(s[..|s| - 1], a), l, b);
      }
    }
  }

  lemma DropSurvivors(s: seq<nat>, i: nat)
    requires Distinct(s) && i < |s|
    ensures Drop(s, i) == Survivors(s, {s[i]})
  {
    hide Survivors;
    var a, x, b := s[..i], s[i], s[i + 1..];
    assert s == (a + [x]) + b;
    SurvivorsConcat(a + [x], b, {x});
    SurvivorsSnoc(a, x, {x});
    AllSurvive(a, {x});
    AllSurvive(b, {x});
  }

  /** In a list whose first `k` elements may have gone, the `k`th is followed by what
      followed it before. */
  lemma SurvivorsNext(s: seq<nat>, gone: set<nat>, k: nat) returns (j: nat)
    requires Distinct(s) && k < |s| && forall x :: x in gone ==> x in s[..k]
    ensures var r := Survivors(s, gone); j < |r| && r[j] == s[k] && At(r, j + 1) == At(s, k + 1)
  {
    var a, b := Survivors(s[..k], gone), s[k..];
    assert s == s[..k] + b;
    SurvivorsConcat(s[..k], b, gone);
    forall x | x in b ensures x !in gone {
      var i :| 0 <= i < |b| && b[i] == x;
      assert s[k + i] == x;
    }
    AllSurvive(b, gone);
    j := |a|;
    assert Survivors(s, gone) == a + b;
  }

  // ----- deleting entries -----

  function Forgotten(c: Client): Client {
    c.(slave := NO_SLAVE, vlan := 0)
  }

  /** rlb_delete_table_entry. */
  function Deleted(r: Rx, x: nat): Rx
    requires x < |r.t|
  {
    Rx(SrcUnlinked(DstDeleted(r.t, x), x), DstHead(r.t, r.head, x))
  }

  /** Deleting an assigned entry takes it off both lists and changes nothing else. */
  lemma DeletedGood(r: Rx, used: seq<nat>, lists: seq<seq<nat>>, x: nat)
    requires Good(r, used, lists) && x < SIZE && r.t[x].taken
    ensures var r' := Deleted(r, x);
            && Good(r', Survivors(used, {x}), SurvivorsOf(lists, {x}))
            && forall y :: 0 <= y < SIZE ==> r'.t[y].c == if y == x then Forgotten(r.t[x].c) else r.t[y].c
  {
    hide DstDeleted, SrcUnlinked, Survivors, Cell, Drop, Hash, DstHead;
    var h := Hash(r.t[x].c.ipSrc);
    var i :| 0 <= i < |used| && used[i] == x;
    assert x in lists[h];
    var j :| 0 <= j < |lists[h]| && lists[h][j] == x;
    DstFields(r.t, x);
    var t1, lists' := DstDeleted(r.t, x), lists[h := Drop(lists[h], j)];
    var t2 := SrcUnlinked(t1, x);
    DstKeepsSrc(r.t, lists, x);
    UsedRemoved(r.t, r.head, used, i);
    SrcRemoved(t1, lists, h, j);
    assert Bucket(r.t, lists, h);
    DropSurvivors(used, i);
    OnlyFrom(r.t, lists, h, j);
    UnlinkKeepsUsed(t1, lists, h, j, DstHead(r.t, r.head, x), Drop(used, i));
    DeletedPlaced(r.t, used, lists, x, t2);
  }

  /** What deleting from the used list leaves alone. */
  lemma DstFields(t: Table, x: nat)
    requires x < |t|
    ensures var t' := DstDeleted(t, x);
            && |t'| == |t|
            && forall y :: 0 <= y < |t| ==>
                 && t'[y].srcFirst == t[y].srcFirst && t'[y].srcNext == t[y].srcNext && t'[y].srcPrev == t[y].srcPrev
                 && t'[y].taken == (y != x && t[y].taken)
                 && t'[y].c == if y == x then Forgotten(t[x].c) else t[y].c
  {
  }

  lemma SameLinks(k: Kind, t: Table, t': Table, s: seq<nat>, before: nat)
    requires Linked(k, t, s, before) && |t'| == |t|
    requires forall y :: 0 <= y < |t| ==> Nxt(k, t'[y]) == Nxt(k, t[y]) && Prv(k, t'[y]) == Prv(k, t[y])
    ensures Linked(k, t', s, before)
  {
    forall i | 0 <= i < |s| ensures Cell(k, t', s, before, i) {
      assert Cell(k, t, s, before, i);
    }
  }

  lemma SameSrcLinks(t: Table, t': Table, lists: seq<seq<nat>>)
    requires SrcLinks(t, lists) && |t'| == |t|
    requires forall y :: 0 <= y < |t| ==>
      t'[y].srcFirst == t[y].srcFirst && t'[y].srcNext == t[y].srcNext && t'[y].srcPrev == t[y].srcPrev
    ensures SrcLinks(t', lists)
  {
    forall h | 0 <= h < SIZE ensures Bucket(t', lists, h) {
      assert Bucket(t, lists, h);
      SameLinks(Src, t, t', lists[h], h);
    }
  }

  lemma SameUsedLinks(t: Table, t': Table, head: nat, used: seq<nat>)
    requires UsedLinks(t, head, used) && |t'| == |t|
    requires forall y :: 0 <= y < |t| ==> t'[y].usedNext == t[y].usedNext && t'[y].usedPrev == t[y].usedPrev
    ensures UsedLinks(t', head, used)
  {
    SameLinks(Used, t, t', used, NULL);
  }

  lemma DstKeepsSrc(t: Table, lists: seq<seq<nat>>, x: nat)
    requires SrcLinks(t, lists) && x < SIZE
    ensures SrcLinks(DstDeleted(t, x), lists)
  {
    DstFields(t, x);
    SameSrcLinks(t, DstDeleted(t, x), lists);
  }

  lemma UnlinkKeepsUsed(t: Table, lists: seq<seq<nat>>, h: nat, j: nat, head: nat, used: seq<nat>)
    requires SrcLinks(t, lists) && h < SIZE && j < |lists[h]| && lists[h][j] < |t| && UsedLinks(t, head, used)
    ensures var t' := SrcUnlinked(t, lists[h][j]);
            && UsedLinks(t', head, used)
            && forall y :: 0 <= y < SIZE ==> t'[y].taken == t[y].taken && t'[y].c == t[y].c
  {
    hide SrcUnlinked;
    var x := lists[h][j];
    forall y | 0 <= y < SIZE ensures SameOtherwise(t[y], SrcUnlinked(t, x)[y]) {
      UnlinkedFields(t, lists, h, j, y);
    }
    SameUsedLinks(t, SrcUnlinked(t, x), head, used);
  }

  /** An entry is only on the list of its bucket, so the other lists keep all their
      elements. */
  lemma OnlyFrom(t: Table, lists: seq<seq<nat>>, h: nat, j: nat)
    requires SrcLinks(t, lists) && h < SIZE && j < |lists[h]|
    ensures lists[h := Drop(lists[h], j)] == SurvivorsOf(lists, {lists[h][j]})
  {
    var x := lists[h][j];
    assert Bucket(t, lists, h);
    DropSurvivors(lists[h], j);
    forall g | 0 <= g < SIZE && g != h ensures Survivors(lists[g], {x}) == lists[g] {
      assert x in lists[h];
      AllSurvive(lists[g], {x});
    }
  }

  lemma DeletedPlaced(t: Table, used: seq<nat>, lists: seq<seq<nat>>, x: nat, t': Table)
    requires |t| == SIZE == |lists| == |t'| && Placed(t, used, lists) && x < SIZE
    requires forall y :: 0 <= y < SIZE ==>
               && t'[y].taken == (y != x && t[y].taken)
               && t'[y].c == if y == x then Forgotten(t[x].c) else t[y].c
    ensures Placed(t', Survivors(used, {x}), SurvivorsOf(lists, {x}))
  {
    SurvivorsMembers(used, {x});
    forall y, h | 0 <= y < SIZE && 0 <= h < SIZE
      ensures y in SurvivorsOf(lists, {x})[h] <==> t'[y].taken && Hash(t'[y].c.ipSrc) == h
    {
      SurvivorsMembers(lists[h], {x});
      assert y in lists[h] <==> t[y].taken && Hash(t[y].c.ipSrc) == h;
    }
  }

  // ----- a valid table is determined by its lists -----

  lemma UsedDetermined(t1: Table, t2: Table, head1: nat, head2: nat, used: seq<nat>, x: nat)
    requires UsedLinks(t1, head1, used) && UsedLinks(t2, head2, used) && x < SIZE
    ensures head1 == head2 && t1[x].usedNext == t2[x].usedNext && t1[x].usedPrev == t2[x].usedPrev
  {
    if x in used {
      var i :| 0 <= i < |used| && used[i] == x;
      assert Cell(Used, t1, used, NULL, i) && Cell(Used, t2, used, NULL, i);
    }
  }

  lemma SrcDetermined(t1: Table, t2: Table, lists: seq<seq<nat>>, x: nat)
    requires SrcLinks(t1, lists) && SrcLinks(t2, lists) && x < SIZE
    ensures t1[x].srcFirst == t2[x].srcFirst && t1[x].srcNext == t2[x].srcNext && t1[x].srcPrev == t2[x].srcPrev
  {
    assert Bucket(t1, lists, x) && Bucket(t2, lists, x);
    if !OnNone(lists, x) {
      var h :| 0 <= h < |lists| && x in lists[h];
      var i :| 0 <= i < |lists[h]| && lists[h][i] == x;
      assert Bucket(t1, lists, h) && Bucket(t2, lists, h);
      assert Cell(Src, t1, lists[h], h, i) && Cell(Src, t2, lists[h], h, i);
    }
  }

  /** Two valid tables with the same lists and the same clients are equal, down to the
      last link. */
  lemma Determined(r1: Rx, r2: Rx, used: seq<nat>, lists: seq<seq<nat>>)
    requires Good(r1, used, lists) && Good(r2, used, lists)
    requires forall y :: 0 <= y < SIZE ==> r1.t[y].c == r2.t[y].c
    ensures r1 == r2
  {
    UsedDetermined(r1.t, r2.t, r1.head, r2.head, used, 0);
    forall x | 0 <= x < SIZE ensures r1.t[x] == r2.t[x] {
      UsedDetermined(r1.t, r2.t, r1.head, r2.head, used, x);
      SrcDetermined(r1.t, r2.t, lists, x);
      assert r1.t[x].taken <==> x in used;
      assert r2.t[x].taken <==> x in used;
    }
  }

  // ----- deleting by a test -----

  /** Which entries to delete: those with a source address but another source MAC, or
      those of a VLAN. */
  datatype Test = BySource(ip: Ip, mac: nat) | ByVlan(vlan: nat)

  predicate Doomed(test: Test, e: Entry) {
    e.taken && match test
               case BySource(ip, mac) => e.c.ipSrc == ip && e.c.macSrc != mac
               case ByVlan(vlan) => e.c.vlan == vlan
  }

  function DoomedBelow(test: Test, t: Table, n: nat): set<nat>
    requires n <= |t|
  {
    set x | 0 <= x < n && Doomed(test, t[x])
  }

  /** The reference: look at every entry of the table, and delete it if it meets the
      test. */
  function Scanned(test: Test, r: Rx, n: nat): Rx
    requires n <= SIZE
  {
    if n == 0 then r
    else
      var r' := Scanned(test, r, n - 1);
      if n - 1 < |r'.t| && Doomed(test, r'.t[n - 1]) then Deleted(r', n - 1) else r'
  }

  /** From `r` to `r'` exactly the entries `gone` have been deleted. */
  ghost predicate Purged(r: Rx, r': Rx, used: seq<nat>, lists: seq<seq<nat>>, gone: set<nat>)
    requires |r.t| == SIZE
  {
    && Good(r', Survivors(used, gone), SurvivorsOf(lists, gone))
    && forall y :: 0 <= y < SIZE ==> r'.t[y].c == if y in gone then Forgotten(r.t[y].c) else r.t[y].c
  }

  lemma PurgedNone(r: Rx, used: seq<nat>, lists: seq<seq<nat>>)
    requires Good(r, used, lists)
    ensures Purged(r, r, used, lists, {})
  {
    AllSurvive(used, {});
    forall h | 0 <= h < SIZE ensures Survivors(lists[h], {}) == lists[h] {
      AllSurvive(lists[h], {});
    }
    assert SurvivorsOf(lists, {}) == lists;
  }

  /** After deletions an entry is assigned, and meets the test, as before unless it is
      gone. */
  lemma PurgedTaken(r: Rx, r': Rx, used: seq<nat>, lists: seq<seq<nat>>, gone: set<nat>, y: nat, test: Test)
    requires Good(r, used, lists) && Purged(r, r', used, lists, gone) && y < SIZE
    ensures r'.t[y].taken <==> r.t[y].taken && y !in gone
    ensures y !in gone ==> (Doomed(test, r'.t[y]) <==> Doomed(test, r.t[y]))
  {
    SurvivorsMembers(used, gone);
    assert r.t[y].taken <==> y in used;
    assert r'.t[y].taken <==> y in Survivors(used, gone);
  }

  lemma PurgedMore(r: Rx, r': Rx, used: seq<nat>, lists: seq<seq<nat>>, gone: set<nat>, x: nat)
    requires Good(r, used, lists) && Purged(r, r', used, lists, gone) && x < SIZE && r.t[x].taken && x !in gone
    ensures x < |r'.t| && Purged(r, Deleted(r', x), used, lists, gone + {x})
  {
    hide Deleted, Survivors, Valid;
    var used', lists' := Survivors(used, gone), SurvivorsOf(lists, gone);
    PurgedSize(r, r', used, lists, gone);
    PurgedTaken(r, r', used, lists, gone, x, ByVlan(0));
    DeletedGood(r', used', lists', x);
    SurvivorsTwice(used, gone, {x});
    forall h | 0 <= h < |lists| ensures Survivors(lists'[h], {x}) == Survivors(lists[h], gone + {x}) {
      SurvivorsTwice(lists[h], gone, {x});
    }
    assert SurvivorsOf(lists', {x}) == SurvivorsOf(lists, gone + {x});
  }

  lemma PurgedSize(r: Rx, r': Rx, used: seq<nat>, lists: seq<seq<nat>>, gone: set<nat>)
    requires Good(r, used, lists) && Purged(r, r', used, lists, gone)
    ensures |r'.t| == SIZE == |lists| == |r.t|
  {
  }

  lemma {:induction false} ScannedPurges(test: Test, r: Rx, used: seq<nat>, lists: seq<seq<nat>>, n: nat)
    requires Good(r, used, lists) && n <= SIZE
    ensures |r.t| == SIZE && Purged(r, Scanned(test, r, n), used, lists, DoomedBelow(test, r.t, n))
    decreases n
  {
    hide Deleted, Survivors, Valid, Doomed, Purged;
    if n == 0 {
      PurgedNone(r, used, lists);
      GoodSize(r, used, lists);
      assert DoomedBelow(test, r.t, 0) == {};
    } else {
      ScannedPurges(test, r, used, lists, n - 1);
      var r', gone, x := Scanned(test, r, n - 1), DoomedBelow(test, r.t, n - 1), n - 1;
      PurgedSize(r, r', used, lists, gone);
      PurgedTaken(r, r', used, lists, gone, x, test);
      if Doomed(test, r.t[x]) {
        DoomedTaken(test, r.t[x]);
        PurgedMore(r, r', used, lists, gone, x);
        assert DoomedBelow(test, r.t, n) == gone + {x};
      } else {
        assert DoomedBelow(test, r.t, n) == gone;
      }
    }
  }

  lemma GoodSize(r: Rx, used: seq<nat>, lists: seq<seq<nat>>)
    requires Good(r, used, lists)
    ensures |r.t| == SIZE == |lists|
  {
  }

  lemma DoomedTaken(test: Test, e: Entry)
    requires Doomed(test, e)
    ensures e.taken
  {
  }

  /** Whoever deletes exactly the entries that meet the test, in whatever order, gets
      the table of the scan. */
  lemma SameAsScan(test: Test, r: Rx, r': Rx, used: seq<nat>, lists: seq<seq<nat>>, gone: set<nat>)
    requires Good(r, used, lists) && Purged(r, r', used, lists, gone)
    requires |r.t| == SIZE && gone == DoomedBelow(test, r.t, SIZE)
    ensures r' == Scanned(test, r, SIZE)
  {
    ScannedPurges(test, r, used, lists, SIZE);
    Determined(r', Scanned(test, r, SIZE), Survivors(used, gone), SurvivorsOf(lists, gone));
  }

  /** What the scan guarantees: no assigned entry meets the test any more, and every
      other entry keeps its client and its place in the lists. */
  lemma ScanClears(test: Test, r: Rx, used: seq<nat>, lists: seq<seq<nat>>)
    requires Good(r, used, lists)
    ensures |r.t| == SIZE
    ensures var r', gone := Scanned(test, r, SIZE), DoomedBelow(test, r.t, SIZE);
            && Good(r', Survivors(used, gone), SurvivorsOf(lists, gone))
            && (forall y :: 0 <= y < SIZE ==> !Doomed(test, r'.t[y]))
            && forall y :: 0 <= y < SIZE && !Doomed(test, r.t[y]) ==>
                 r'.t[y].taken == r.t[y].taken && r'.t[y].c == r.t[y].c
  {
    ScannedPurges(test, r, used, lists, SIZE);
    var r', gone := Scanned(test, r, SIZE), DoomedBelow(test, r.t, SIZE);
    forall y | 0 <= y < SIZE
      ensures !Doomed(test, r'.t[y])
      ensures !Doomed(test, r.t[y]) ==> r'.t[y].taken == r.t[y].taken && r'.t[y].c == r.t[y].c
    {
      PurgedTaken(r, r', used, lists, gone, y, test);
    }
  }

  // ----- rlb_choose_channel -----

  datatype Arp = Arp(ipSrc: Ip, ipDst: Ip, macSrc: nat, macDst: nat)

  const BROADCAST: nat := 0xffff_ffff_ffff

  /** A unicast address that is not zero. */
  predicate IsValidMac(mac: nat) {
    mac != 0 && mac / 0x100_0000_0000 % 2 == 0
  }

  /** The entry after the part of rlb_choose_channel that deals with its present
      client. */
  function Revisited(e: Entry, arp: Arp, active: int): Entry {
    if !e.taken then e
    else if e.c.ipSrc == arp.ipSrc && e.c.ipDst == arp.ipDst then
      e.(c := e.c.(macDst := if arp.macDst != BROADCAST then arp.macDst else e.c.macDst, macSrc := arp.macSrc))
    else if active != NO_SLAVE then e.(c := e.c.(slave := active))
    else e
  }

  predicate Settled(e: Entry, arp: Arp) {
    e.taken && e.c.ipSrc == arp.ipSrc && e.c.ipDst == arp.ipDst && e.c.slave != NO_SLAVE
  }

  /** rlb_choose_channel; `next` is what __rlb_next_rx_slave returns. */
  function Chosen(r: Rx, arp: Arp, active: int, next: int, vlan: nat): Rx
    requires |r.t| == SIZE
  {
    var h := Hash(arp.ipDst);
    var e := r.t[h];
    var t1 := r.t[h := Revisited(e, arp, active)];
    if Settled(e, arp) || next == NO_SLAVE then Rx(t1, r.head)
    else
      var t2 := if e.taken && e.c.ipSrc == arp.ipSrc then t1 else Relinked(t1, Hash(arp.ipSrc), h);
      var c := Client(arp.ipSrc, arp.ipDst, arp.macSrc, arp.macDst, next, vlan, IsValidMac(arp.macDst));
      var t3 := t2[h := t2[h].(c := c)];
      if e.taken then Rx(t3, r.head) else Rx(UsedLinked(t3, r.head, h), h)
  }

  function Relinked(t: Table, g: nat, x: nat): (r: Table)
    requires x < |t| && g < |t|
    ensures |r| == |t|
  {
    SrcLinked(SrcUnlinked(t, x), g, x)
  }

  /** The lists afterwards: the entry goes to the front of the list of its new source
      address, and to the front of the used list if it was not on it. */
  function ChosenUsed(r: Rx, used: seq<nat>, arp: Arp, next: int): seq<nat>
    requires |r.t| == SIZE
  {
    var h := Hash(arp.ipDst);
    if r.t[h].taken || next == NO_SLAVE then used else [h] + used
  }

  function ChosenLists(r: Rx, lists: seq<seq<nat>>, arp: Arp, next: int): seq<seq<nat>>
    requires |r.t| == SIZE == |lists|
  {
    var h, g := Hash(arp.ipDst), Hash(arp.ipSrc);
    if Settled(r.t[h], arp) || next == NO_SLAVE || (r.t[h].taken && r.t[h].c.ipSrc == arp.ipSrc) then lists
    else
      var rest := SurvivorsOf(lists, {h});
      rest[g := [h] + rest[g]]
  }

  lemma UnlinkNothing(t: Table, x: nat)
    requires x < |t| == SIZE && t[x].srcNext == NULL && t[x].srcPrev == NULL
    ensures SrcUnlinked(t, x) == t
  {
  }

  /** Moving an entry to another bucket, or putting a free one into a bucket. */
  lemma RelinkedLinks(t: Table, used: seq<nat>, lists: seq<seq<nat>>, g: nat, x: nat)
    requires SrcLinks(t, lists) && Placed(t, used, lists) && g < SIZE && x < SIZE
    ensures var rest := SurvivorsOf(lists, {x}); SrcLinks(Relinked(t, g, x), rest[g := [x] + rest[g]])
    ensures forall y :: 0 <= y < SIZE ==> SameOtherwise(t[y], Relinked(t, g, x)[y])
  {
    hide SrcUnlinked, SrcLinked, Hash;
    var rest, t' := SurvivorsOf(lists, {x}), SrcUnlinked(t, x);
    if t[x].taken {
      var h := Hash(t[x].c.ipSrc);
      assert x in lists[h];
      var j :| 0 <= j < |lists[h]| && lists[h][j] == x;
      SrcRemoved(t, lists, h, j);
      OnlyFrom(t, lists, h, j);
      forall y | 0 <= y < SIZE ensures SameOtherwise(t[y], t'[y]) {
        UnlinkedFields(t, lists, h, j, y);
      }
    } else {
      NotListed(t, used, lists, x);
      UnlinkNothing(t, x);
    }
    forall h | 0 <= h < SIZE ensures x !in rest[h] {
      SurvivorsMembers(lists[h], {x});
    }
    SrcAdded(t', rest, g, x);
    forall y | 0 <= y < SIZE ensures SameOtherwise(t[y], SrcLinked(t', g, x)[y]) {
      LinkedFields(t', rest, g, x, y);
    }
  }

  lemma NotListed(t: Table, used: seq<nat>, lists: seq<seq<nat>>, x: nat)
    requires SrcLinks(t, lists) && Placed(t, used, lists) && x < SIZE && !t[x].taken
    ensures OnNone(lists, x) && SurvivorsOf(lists, {x}) == lists && t[x].srcNext == NULL && t[x].srcPrev == NULL
  {
    forall h | 0 <= h < |lists| ensures x !in lists[h] && Survivors(lists[h], {x}) == lists[h] {
      AllSurvive(lists[h], {x});
    }
  }

  /** Changing a client without changing its source address. */
  lemma ClientChanged(r: Rx, used: seq<nat>, lists: seq<seq<nat>>, x: nat, c: Client)
    requires Good(r, used, lists) && x < SIZE && c.ipSrc == r.t[x].c.ipSrc
    ensures Good(Rx(r.t[x := r.t[x].(c := c)], r.head), used, lists)
  {
    var t := r.t[x := r.t[x].(c := c)];
    SameUsedLinks(r.t, t, r.head, used);
    SameSrcLinks(r.t, t, lists);
    forall y, h | 0 <= y < SIZE && 0 <= h < SIZE ensures y in lists[h] <==> t[y].taken && Hash(t[y].c.ipSrc) == h {
      assert y in lists[h] <==> r.t[y].taken && Hash(r.t[y].c.ipSrc) == h;
    }
    forall y | 0 <= y < SIZE ensures t[y].taken <==> y in used {
      assert r.t[y].taken <==> y in used;
    }
  }

  /** Giving entry `x` a client with another source address. */
  lemma SourceChanged(r: Rx, used: seq<nat>, lists: seq<seq<nat>>, x: nat, c: Client)
    requires Good(r, used, lists) && x < SIZE
    ensures var g, rest := Hash(c.ipSrc), SurvivorsOf(lists, {x});
            var t := Relinked(r.t, g, x);
            var t' := t[x := t[x].(c := c)];
            var lists' := rest[g := [x] + rest[g]];
            && UsedLinks(t', r.head, used) && SrcLinks(t', lists')
            && (forall y :: 0 <= y < SIZE ==> t'[y].taken == r.t[y].taken && (y != x ==> t'[y].c == r.t[y].c))
            && forall y, h :: 0 <= y < SIZE && 0 <= h < SIZE ==>
                 (y in lists'[h] <==> if y == x then h == g else r.t[y].taken && Hash(r.t[y].c.ipSrc) == h)
  {
    hide Relinked, Hash;
    var g, rest := Hash(c.ipSrc), SurvivorsOf(lists, {x});
    var t := Relinked(r.t, g, x);
    var t' := t[x := t[x].(c := c)];
    var lists' := rest[g := [x] + rest[g]];
    RelinkedLinks(r.t, used, lists, g, x);
    SameUsedLinks(r.t, t', r.head, used);
    SameSrcLinks(t, t', lists');
    forall y, h | 0 <= y < SIZE && 0 <= h < SIZE
      ensures y in lists'[h] <==> if y == x then h == g else r.t[y].taken && Hash(r.t[y].c.ipSrc) == h
    {
      SurvivorsMembers(lists[h], {x});
      assert y in lists[h] <==> r.t[y].taken && Hash(r.t[y].c.ipSrc) == h;
    }
  }

  lemma UsedAddedKeeps(t: Table, head: nat, lists: seq<seq<nat>>, x: nat)
    requires SrcLinks(t, lists) && x < SIZE
    ensures var t' := UsedLinked(t, head, x);
            && SrcLinks(t', lists)
            && forall y :: 0 <= y < SIZE ==> t'[y].c == t[y].c && t'[y].taken == (y == x || t[y].taken)
  {
    SameSrcLinks(t, UsedLinked(t, head, x), lists);
  }

  /** rlb_choose_channel keeps the table valid. */
  lemma ChosenGood(r: Rx, used: seq<nat>, lists: seq<seq<nat>>, arp: Arp, active: int, next: int, vlan: nat)
    requires Good(r, used, lists)
    ensures |r.t| == SIZE == |lists|
    ensures Good(Chosen(r, arp, active, next, vlan), ChosenUsed(r, used, arp, next), ChosenLists(r, lists, arp, next))
  {
    hide Hash, UsedLinked, Relinked, Valid;
    GoodSize(r, used, lists);
    var h, g := Hash(arp.ipDst), Hash(arp.ipSrc);
    var e := r.t[h];
    var r1 := Rx(r.t[h := Revisited(e, arp, active)], r.head);
    ClientChanged(r, used, lists, h, Revisited(e, arp, active).c);
    assert Revisited(e, arp, active) == e.(c := Revisited(e, arp, active).c);
    if !Settled(e, arp) && next != NO_SLAVE {
      var c := Client(arp.ipSrc, arp.ipDst, arp.macSrc, arp.macDst, next, vlan, IsValidMac(arp.macDst));
      if e.taken && e.c.ipSrc == arp.ipSrc {
        ClientChanged(r1, used, lists, h, c);
      } else {
        SourceChanged(r1, used, lists, h, c);
        ChosenMoved(r1, used, lists, h, c);
      }
    }
  }

  lemma ChosenMoved(r: Rx, used: seq<nat>, lists: seq<seq<nat>>, x: nat, c: Client)
    requires Good(r, used, lists) && x < SIZE
    ensures var g, rest := Hash(c.ipSrc), SurvivorsOf(lists, {x});
            var t := Relinked(r.t, g, x);
            var t' := t[x := t[x].(c := c)];
            var lists' := rest[g := [x] + rest[g]];
            if r.t[x].taken then Good(Rx(t', r.head), used, lists')
            else Good(Rx(UsedLinked(t', r.head, x), x), [x] + used, lists')
  {
    hide Hash, UsedLinked, Relinked;
    var g, rest := Hash(c.ipSrc), SurvivorsOf(lists, {x});
    var t := Relinked(r.t, g, x);
    var t' := t[x := t[x].(c := c)];
    var lists' := rest[g := [x] + rest[g]];
    SourceChanged(r, used, lists, x, c);
    assert forall y :: 0 <= y < SIZE ==> (r.t[y].taken <==> y in used);
    if !r.t[x].taken {
      UsedAdded(t', r.head, used, x);
      UsedAddedKeeps(t', r.head, lists', x);
    }
  }

  // ----- runs -----

  /** `Update` stands for all code that changes what is known of a client, but not its source address: a slave that
      failed or came back, a new address of the peer, a pending reply. */
  datatype Op = Choose(arp: Arp, active: int, next: int, vlan: nat) | Purge(test: Test) | Update(x: nat, c: Client)

  /** The table as rlb_initialize leaves it. */
  function Empty(): Rx {
    Rx(seq(SIZE, _ => Entry(NULL, NULL, NULL, NULL, NULL, false, Client([], [], 0, 0, NO_SLAVE, 0, false))), NULL)
  }

  function Do(r: Rx, op: Op): Rx
    requires |r.t| == SIZE
  {
    match op
    case Choose(arp, active, next, vlan) => Chosen(r, arp, active, next, vlan)
    case Purge(test) => Scanned(test, r, SIZE)
    case Update(x, c) =>
      if x < SIZE && c.ipSrc == r.t[x].c.ipSrc then Rx(r.t[x := r.t[x].(c := c)], r.head) else r
  }

  /** There are lists that the links of the table spell out, and they hold exactly the
      assigned entries. */
  ghost predicate Consistent(r: Rx) {
    exists used, lists :: Good(r, used, lists)
  }

  lemma EmptyConsistent()
    ensures Consistent(Empty())
  {
    var lists: seq<seq<nat>> := seq(SIZE, _ => []);
    assert Good(Empty(), [], lists);
  }

  lemma DoKeeps(r: Rx, op: Op)
    requires Consistent(r)
    ensures |r.t| == SIZE && Consistent(Do(r, op))
  {
    hide Valid, Chosen, Scanned;
    var used, lists :| Good(r, used, lists);
    GoodSize(r, used, lists);
    match op
    case Choose(arp, active, next, vlan) => ChosenGood(r, used, lists, arp, active, next, vlan);
    case Purge(test) => ScanClears(test, r, used, lists);
    case Update(x, c) =>
      if x < SIZE && c.ipSrc == r.t[x].c.ipSrc {
        ClientChanged(r, used, lists, x, c);
      }
  }

  ghost predicate Reaches(r: Rx, ops: seq<Op>, r': Rx)
    decreases |ops|
  {
    if ops == [] then r' == r else |r.t| == SIZE && Reaches(Do(r, ops[0]), ops[1..], r')
  }

  lemma {:induction false} RunKeeps(r: Rx, ops: seq<Op>, r': Rx)
    requires Consistent(r) && Reaches(r, ops, r')
    ensures Consistent(r')
    decreases |ops|
  {
    hide Consistent, Do;
    if ops != [] {
      DoKeeps(r, ops[0]);
      RunKeeps(Do(r, ops[0]), ops[1..], r');
    }
  }

  /** In every run, an entry is assigned iff it is on the used list, iff it is on a
      source list, and then it is on that of its source address and on no other. */
  lemma OnExactlyOne(ops: seq<Op>, r: Rx) returns (used: seq<nat>, lists: seq<seq<nat>>)
    requires Reaches(Empty(), ops, r)
    ensures Good(r, used, lists)
    ensures |r.t| == SIZE == |lists|
    ensures forall x :: 0 <= x < SIZE ==>
              && (r.t[x].taken <==> x in used)
              && (r.t[x].taken <==> exists h :: 0 <= h < SIZE && x in lists[h])
              && forall h :: 0 <= h < SIZE && x in lists[h] ==> h == Hash(r.t[x].c.ipSrc)
  {
    EmptyConsistent();
    RunKeeps(Empty(), ops, r);
    used, lists :| Good(r, used, lists);
    forall x | 0 <= x < SIZE ensures r.t[x].taken <==> exists h :: 0 <= h < SIZE && x in lists[h] {
      if r.t[x].taken {
        assert x in lists[Hash(r.t[x].c.ipSrc)];
      }
    }
  }
}

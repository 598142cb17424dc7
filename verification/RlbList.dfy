/** The two intrusive lists of the receive hash table (servers/bond_alb.c) as values:
    the list of used entries, and for every bucket the list of entries whose source
    address hashes to it.  The cells of the table are heads and elements at once. */
module RlbList {

  const SIZE: nat := 256
  const NULL: nat := 0xffff_ffff

  type Ip = seq<bv8>

  /** The part of an entry that describes a client. */
  datatype Client = Client(ipSrc: Ip, ipDst: Ip, macSrc: nat, macDst: nat, slave: int, vlan: nat, ntt: bool)

  const NO_SLAVE: int := -1

  datatype Entry = Entry(usedNext: nat, usedPrev: nat, srcFirst: nat, srcPrev: nat, srcNext: nat,
                         taken: bool, c: Client)

  type Table = seq<Entry>

  datatype Kind = Used | Src

  function Nxt(k: Kind, e: Entry): nat { if k == Used then e.usedNext else e.srcNext }
  function Prv(k: Kind, e: Entry): nat { if k == Used then e.usedPrev else e.srcPrev }

  function SimpleHash(bytes: seq<bv8>): bv8 {
    if bytes == [] then 0 else SimpleHash(bytes[..|bytes| - 1]) ^ bytes[|bytes| - 1]
  }

  function Hash(ip: Ip): (h: nat)
    ensures h < SIZE
  {
    SimpleHash(ip) as nat
  }

  function At(s: seq<nat>, i: nat): nat {
    if i < |s| then s[i] else NULL
  }

  ghost predicate Distinct(s: seq<nat>) {
    forall i, j :: 0 <= i < j < |s| ==> s[i] != s[j]
  }

  ghost predicate Cell(k: Kind, t: Table, s: seq<nat>, before: nat, i: nat)
    requires i < |s|
  {
    && s[i] < |t| && Nxt(k, t[s[i]]) == At(s, i + 1)
    && Prv(k, t[s[i]]) == if i == 0 then before else s[i - 1]
  }

  /** The links of kind `k` of the entries `s` make them a list in this order, without
      repetition; the first one points back to `before`. */
  ghost predicate Linked(k: Kind, t: Table, s: seq<nat>, before: nat) {
    Distinct(s) && forall i :: 0 <= i < |s| ==> Cell(k, t, s, before, i)
  }

  /** The used list, and entries that are not on it have no used links. */
  ghost predicate UsedLinks(t: Table, head: nat, used: seq<nat>) {
    && |t| == SIZE && head == At(used, 0) && Linked(Used, t, used, NULL)
    && forall x :: 0 <= x < |t| && x !in used ==> t[x].usedNext == NULL && t[x].usedPrev == NULL
  }

  ghost predicate Bucket(t: Table, lists: seq<seq<nat>>, h: nat)
    requires h < |lists| == |t|
  {
    t[h].srcFirst == At(lists[h], 0) && Linked(Src, t, lists[h], h)
  }

  ghost predicate OnNone(lists: seq<seq<nat>>, x: nat) {
    forall h :: 0 <= h < |lists| ==> x !in lists[h]
  }

  /** The source lists; no entry is on two of them, and entries on none have no source
      links. */
  ghost predicate SrcLinks(t: Table, lists: seq<seq<nat>>) {
    && |t| == SIZE == |lists|
    && (forall h :: 0 <= h < SIZE ==> Bucket(t, lists, h))
    && (forall g, h, x :: 0 <= g < SIZE && 0 <= h < SIZE && x in lists[g] && x in lists[h] ==> g == h)
    && (forall x :: 0 <= x < SIZE && OnNone(lists, x) ==> t[x].srcNext == NULL && t[x].srcPrev == NULL)
  }

  /** An entry is assigned iff it is on the used list, and iff it is on a source list,
      that of the bucket its source address hashes to. */
  ghost predicate Placed(t: Table, used: seq<nat>, lists: seq<seq<nat>>)
    requires |t| == SIZE == |lists|
  {
    && (forall x :: 0 <= x < SIZE ==> (t[x].taken <==> x in used))
    && (forall x, h :: 0 <= x < SIZE && 0 <= h < SIZE ==> (x in lists[h] <==> t[x].taken && Hash(t[x].c.ipSrc) == h))
  }

  ghost predicate Valid(t: Table, head: nat, used: seq<nat>, lists: seq<seq<nat>>) {
    UsedLinks(t, head, used) && SrcLinks(t, lists) && Placed(t, used, lists)
  }

  // ----- what the operations write -----

  /** rlb_delete_table_entry_dst and rlb_init_table_entry_dst. */
  function DstHead(t: Table, head: nat, x: nat): nat
    requires x < |t|
  {
    if x == head then t[x].usedNext else head
  }

  function DstDeleted(t: Table, x: nat): (r: Table)
    requires x < |t|
    ensures |r| == |t|
  {
    var n, p := t[x].usedNext, t[x].usedPrev;
    var t1 := if p < |t| then t[p := t[p].(usedNext := n)] else t;
    var t2 := if n < |t| then t1[n := t1[n].(usedPrev := p)] else t1;
    t2[x := t2[x].(usedNext := NULL, usedPrev := NULL, taken := false, c := t2[x].c.(slave := NO_SLAVE, vlan := 0))]
  }

  /** rlb_src_unlink. */
  function SrcUnlinked(t: Table, x: nat): (r: Table)
    requires x < |t|
    ensures |r| == |t|
  {
    var n, p := t[x].srcNext, t[x].srcPrev;
    var t1 := t[x := t[x].(srcNext := NULL, srcPrev := NULL)];
    var t2 := if n < |t| then t1[n := t1[n].(srcPrev := p)] else t1;
    if p >= |t| then t2
    else if t2[p].srcFirst == x then t2[p := t2[p].(srcFirst := n)]
    else t2[p := t2[p].(srcNext := n)]
  }

  /** rlb_src_link: `x` becomes the first entry of bucket `h`. */
  function SrcLinked(t: Table, h: nat, x: nat): (r: Table)
    requires h < |t| && x < |t|
    ensures |r| == |t|
  {
    var t1 := t[x := t[x].(srcPrev := h)];
    var n := t1[h].srcFirst;
    var t2 := t1[x := t1[x].(srcNext := n)];
    var t3 := if n < |t| then t2[n := t2[n].(srcPrev := x)] else t2;
    t3[h := t3[h].(srcFirst := x)]
  }

  /** Putting an entry at the head of the used list, as rlb_choose_channel does. */
  function UsedLinked(t: Table, head: nat, x: nat): (r: Table)
    requires x < |t|
    ensures |r| == |t|
  {
    var t1 := t[x := t[x].(usedNext := head)];
    var t2 := if head < |t| then t1[head := t1[head].(usedPrev := x)] else t1;
    t2[x := t2[x].(taken := true)]
  }

  // ----- removing from a list -----

  /** `s` without the element at `i`. */
  function Drop(s: seq<nat>, i: nat): seq<nat>
    requires i < |s|
  {
    s[..i] + s[i + 1..]
  }

  lemma DropDistinct(s: seq<nat>, i: nat)
    requires Distinct(s) && i < |s|
    ensures Distinct(Drop(s, i)) && forall x :: x in Drop(s, i) <==> x in s && x != s[i]
  {
    var d := Drop(s, i);
    forall j | 0 <= j < |d| ensures d[j] == s[if j < i then j else j + 1] {
    }
    forall x | x in s && x != s[i] ensures x in d {
      var j :| 0 <= j < |s| && s[j] == x;
      assert d[if j < i then j else j - 1] == x;
    }
  }

  /** What the entries other than the removed one look like after a removal: only the
      neighbours' links to it have changed. */
  ghost predicate Bypassed(k: Kind, t: Table, t': Table, s: seq<nat>, before: nat, i: nat)
    requires i < |s|
  {
    && |t'| == |t|
    && (forall j :: 0 <= j < |s| && s[j] < |t| && j != i ==>
          && Nxt(k, t'[s[j]]) == (if j + 1 == i then At(s, i + 1) else Nxt(k, t[s[j]]))
          && Prv(k, t'[s[j]]) == (if j == i + 1 then (if i == 0 then before else s[i - 1]) else Prv(k, t[s[j]])))
  }

  lemma BypassedLinked(k: Kind, t: Table, t': Table, s: seq<nat>, before: nat, i: nat)
    requires i < |s| && Linked(k, t, s, before) && Bypassed(k, t, t', s, before, i)
    ensures Linked(k, t', Drop(s, i), before)
  {
    var d := Drop(s, i);
    DropDistinct(s, i);
    forall m | 0 <= m < |d| ensures Cell(k, t', d, before, m) {
      var j := if m < i then m else m + 1;
      assert d[m] == s[j] && Cell(k, t, s, before, j);
    }
  }

  lemma UsedRemoved(t: Table, head: nat, used: seq<nat>, i: nat)
    requires UsedLinks(t, head, used) && i < |used| && used[i] < |t|
    ensures UsedLinks(DstDeleted(t, used[i]), DstHead(t, head, used[i]), Drop(used, i))
  {
    var x, t' := used[i], DstDeleted(t, used[i]);
    assert Cell(Used, t, used, NULL, i);
    forall j | 0 <= j < |used| ensures Cell(Used, t, used, NULL, j) {
    }
    assert Bypassed(Used, t, t', used, NULL, i);
    BypassedLinked(Used, t, t', used, NULL, i);
    DropDistinct(used, i);
    assert head == x <==> i == 0;
  }

  /** The entries of a list of a valid table are entries of the table. */
  lemma UsedInTable(t: Table, head: nat, used: seq<nat>)
    requires UsedLinks(t, head, used)
    ensures forall i :: 0 <= i < |used| ==> used[i] < |t|
  {
    forall i | 0 <= i < |used| ensures used[i] < |t| {
      assert Cell(Used, t, used, NULL, i);
    }
  }

  lemma ListInTable(t: Table, lists: seq<seq<nat>>, h: nat)
    requires SrcLinks(t, lists) && h < SIZE
    ensures forall i :: 0 <= i < |lists[h]| ==> lists[h][i] < |t|
  {
    assert Bucket(t, lists, h);
    forall i | 0 <= i < |lists[h]| ensures lists[h][i] < |t| {
      assert Cell(Src, t, lists[h], h, i);
    }
  }

  /** The fields that are not source links. */
  ghost predicate SameOtherwise(e: Entry, e': Entry) {
    e'.usedNext == e.usedNext && e'.usedPrev == e.usedPrev && e'.taken == e.taken && e'.c == e.c
  }

  /** What rlb_src_unlink has done to the source links, read off the lists.  The test
      whether the predecessor is the bucket or an entry always answers right. */
  lemma UnlinkedFields(t: Table, lists: seq<seq<nat>>, h: nat, i: nat, y: nat)
    requires SrcLinks(t, lists) && h < SIZE && i < |lists[h]| && lists[h][i] < |t| && y < SIZE
    ensures var s := lists[h];
            var x := s[i];
            var e, e' := t[y], SrcUnlinked(t, x)[y];
            && SameOtherwise(e, e')
            && e'.srcFirst == (if i == 0 && y == h then At(s, 1) else e.srcFirst)
            && e'.srcNext == (if y == x then NULL else if i > 0 && y == s[i - 1] then At(s, i + 1) else e.srcNext)
            && e'.srcPrev == (if y == x then NULL
                 else if i + 1 < |s| && y == s[i + 1] then (if i == 0 then h else s[i - 1])
                              else e.srcPrev)
  {
    var s := lists[h];
    var x := s[i];
    ListInTable(t, lists, h);
    assert Bucket(t, lists, h);
    assert Cell(Src, t, s, h, i);
    if i > 0 {
      var p := s[i - 1];
      BucketHead(t, lists, p, x);
      assert t[p].srcFirst != x;
    }
  }

  lemma BucketHead(t: Table, lists: seq<seq<nat>>, p: nat, x: nat)
    requires SrcLinks(t, lists) && p < SIZE && x < SIZE
    ensures t[p].srcFirst == x ==> x in lists[p]
  {
    assert Bucket(t, lists, p);
  }

  lemma SrcRemoved(t: Table, lists: seq<seq<nat>>, h: nat, i: nat)
    requires SrcLinks(t, lists) && h < SIZE && i < |lists[h]| && lists[h][i] < |t|
    ensures SrcLinks(SrcUnlinked(t, lists[h][i]), lists[h := Drop(lists[h], i)])
  {
    var s := lists[h];
    var x := s[i];
    var t', lists' := SrcUnlinked(t, x), lists[h := Drop(s, i)];
    ListInTable(t, lists, h);
    assert Bucket(t, lists, h);
    DropDistinct(s, i);
    forall g | 0 <= g < SIZE ensures Bucket(t', lists', g) {
      if g == h {
        RemovedHere(t, lists, h, i);
      } else {
        RemovedElsewhere(t, lists, h, i, g);
      }
    }
    forall y | 0 <= y < SIZE && OnNone(lists', y) ensures t'[y].srcNext == NULL && t'[y].srcPrev == NULL {
      UnlinkedFields(t, lists, h, i, y);
      if y != x {
        StillOnNone(lists, h, i, y);
      }
    }
    forall g, k, y | 0 <= g < SIZE && 0 <= k < SIZE && y in lists'[g] && y in lists'[k] ensures g == k {
      assert y in lists[g] && y in lists[k];
    }
  }

  lemma StillOnNone(lists: seq<seq<nat>>, h: nat, i: nat, y: nat)
    requires h < |lists| && i < |lists[h]| && Distinct(lists[h]) && y != lists[h][i]
    requires OnNone(lists[h := Drop(lists[h], i)], y)
    ensures OnNone(lists, y)
  {
    DropDistinct(lists[h], i);
    forall g | 0 <= g < |lists| ensures y !in lists[g] {
      assert y !in lists[h := Drop(lists[h], i)][g];
    }
  }

  lemma RemovedHere(t: Table, lists: seq<seq<nat>>, h: nat, i: nat)
    requires SrcLinks(t, lists) && h < SIZE && i < |lists[h]| && lists[h][i] < |t|
    ensures Bucket(SrcUnlinked(t, lists[h][i]), lists[h := Drop(lists[h], i)], h)
  {
    hide SrcUnlinked;
    var s := lists[h];
    UnlinkedFields(t, lists, h, i, h);
    assert Bucket(t, lists, h);
    var t' := SrcUnlinked(t, s[i]);
    ListInTable(t, lists, h);
    forall j | 0 <= j < |s| && s[j] < |t| && j != i
      ensures Nxt(Src, t'[s[j]]) == (if j + 1 == i then At(s, i + 1) else Nxt(Src, t[s[j]]))
      ensures Prv(Src, t'[s[j]]) == (if j == i + 1 then (if i == 0 then h else s[i - 1]) else Prv(Src, t[s[j]]))
    {
      UnlinkedFields(t, lists, h, i, s[j]);
    }
    BypassedLinked(Src, t, t', s, h, i);
  }

  lemma RemovedElsewhere(t: Table, lists: seq<seq<nat>>, h: nat, i: nat, g: nat)
    requires SrcLinks(t, lists) && h < SIZE && i < |lists[h]| && lists[h][i] < |t| && g < SIZE && g != h
    ensures Bucket(SrcUnlinked(t, lists[h][i]), lists[h := Drop(lists[h], i)], g)
  {
    hide SrcUnlinked;
    var s, r := lists[h], lists[g];
    var t' := SrcUnlinked(t, s[i]);
    assert Bucket(t, lists, g);
    UnlinkedFields(t, lists, h, i, g);
    forall j | 0 <= j < |r| ensures Cell(Src, t', r, g, j) {
      assert Cell(Src, t, r, g, j) && r[j] in lists[g];
      UnlinkedFields(t, lists, h, i, r[j]);
      assert r[j] !in lists[h];
    }
  }

  // ----- adding at the front -----

  lemma FrontDistinct(s: seq<nat>, x: nat)
    requires Distinct(s) && x !in s
    ensures Distinct([x] + s)
  {
  }

  lemma UsedAdded(t: Table, head: nat, used: seq<nat>, x: nat)
    requires UsedLinks(t, head, used) && x < SIZE && x !in used
    ensures UsedLinks(UsedLinked(t, head, x), x, [x] + used)
  {
    var t', s := UsedLinked(t, head, x), [x] + used;
    UsedInTable(t, head, used);
    FrontDistinct(used, x);
    forall j | 0 <= j < |s| ensures Cell(Used, t', s, NULL, j) {
      if j > 0 {
        assert Cell(Used, t, used, NULL, j - 1);
      }
    }
  }

  lemma LinkedFields(t: Table, lists: seq<seq<nat>>, h: nat, x: nat, y: nat)
    requires SrcLinks(t, lists) && h < SIZE && x < SIZE && y < SIZE && OnNone(lists, x)
    ensures var s := lists[h];
            var e, e' := t[y], SrcLinked(t, h, x)[y];
            && SameOtherwise(e, e')
            && e'.srcFirst == (if y == h then x else e.srcFirst)
            && e'.srcNext == (if y == x then At(s, 0) else e.srcNext)
            && e'.srcPrev == (if y == x then h else if s != [] && y == s[0] then x else e.srcPrev)
  {
    ListInTable(t, lists, h);
    assert Bucket(t, lists, h);
    assert x !in lists[h];
  }

  lemma SrcAdded(t: Table, lists: seq<seq<nat>>, h: nat, x: nat)
    requires SrcLinks(t, lists) && h < SIZE && x < SIZE && OnNone(lists, x)
    ensures SrcLinks(SrcLinked(t, h, x), lists[h := [x] + lists[h]])
  {
    var t', lists' := SrcLinked(t, h, x), lists[h := [x] + lists[h]];
    hide SrcLinked;
    forall g | 0 <= g < SIZE ensures Bucket(t', lists', g) {
      AddedBucket(t, lists, h, x, g);
    }
    forall y | 0 <= y < SIZE && OnNone(lists', y) ensures t'[y].srcNext == NULL && t'[y].srcPrev == NULL {
      assert y !in lists'[h];
      OnNoneBefore(lists, h, x, y);
      LinkedFields(t, lists, h, x, y);
    }
    forall g, k, y | 0 <= g < SIZE && 0 <= k < SIZE && y in lists'[g] && y in lists'[k] ensures g == k {
      assert y in lists[g] || (g == h && y == x);
      assert y in lists[k] || (k == h && y == x);
    }
  }

  lemma OnNoneBefore(lists: seq<seq<nat>>, h: nat, x: nat, y: nat)
    requires h < |lists| && OnNone(lists[h := [x] + lists[h]], y)
    ensures OnNone(lists, y)
  {
    forall g | 0 <= g < |lists| ensures y !in lists[g] {
      assert y !in lists[h := [x] + lists[h]][g];
    }
  }

  lemma AddedBucket(t: Table, lists: seq<seq<nat>>, h: nat, x: nat, g: nat)
    requires SrcLinks(t, lists) && h < SIZE && x < SIZE && OnNone(lists, x) && g < SIZE
    ensures Bucket(SrcLinked(t, h, x), lists[h := [x] + lists[h]], g)
  {
    var t' := SrcLinked(t, h, x);
    hide SrcLinked;
    var r := lists[h := [x] + lists[h]][g];
    assert Bucket(t, lists, g) && x !in lists[g];
    LinkedFields(t, lists, h, x, g);
    LinkedFields(t, lists, h, x, x);
    FrontDistinct(lists[g], x);
    forall j | 0 <= j < |r| ensures Cell(Src, t', r, g, j) {
      var m := if g == h then j - 1 else j;
      if m >= 0 {
        assert Cell(Src, t, lists[g], g, m) && lists[g][m] in lists[g];
        LinkedFields(t, lists, h, x, lists[g][m]);
        assert g != h ==> lists[g][m] !in lists[h];
      }
    }
  }
}

/** Grafting newly allocated blocks onto the block tree as a value
    (io_uring/inode.c): a run of new data blocks, the new indirect blocks that
    lead to it, and the nodes above them up to the inode. */
module Ext2Graft {
  import opened Ext2Path
  import opened Ext2Tree
  import opened Ext2Free
  import opened Ext2Trunc

  /** `q` is `path` or one of the next `num - 1` paths to its right in the same node. */
  predicate Hit(q: seq<nat>, path: seq<nat>, num: nat)
    decreases |path|
  {
    && |path| >= 1 && |q| == |path|
    && if |path| == 1 then path[0] <= q[0] < path[0] + num
       else q[0] == path[0] && Hit(q[1..], path[1..], num)
  }

  /** How far to the right of `path` the path `q` ends. */
  function Delta(q: seq<nat>, path: seq<nat>): int
    requires |q| >= 1 && |path| >= 1
  {
    q[|q| - 1] as int - path[|path| - 1] as int
  }

  /** `Hit` spelled out: `q` is `path` moved to the right by less than `num`. */
  lemma {:induction false} HitBump(q: seq<nat>, path: seq<nat>, num: nat)
    requires |path| >= 1 && |q| == |path|
    ensures Hit(q, path, num) <==> 0 <= Delta(q, path) < num && q == Bump(path, Delta(q, path))
    decreases |path|
  {
    hide Own, Sub, Shaped, Walk;
    if |path| == 1 {
      assert 0 <= Delta(q, path) ==> q == Bump(path, Delta(q, path));
    } else {
      HitBump(q[1..], path[1..], num);
      var j := Delta(q, path);
      assert Delta(q[1..], path[1..]) == j;
      if 0 <= j {
        assert Bump(path, j) == [path[0]] + Bump(path[1..], j);
        assert q == [q[0]] + q[1..];
      }
    }
  }

  /** Where `q` leads after the graft, if it led to `before` before. */
  ghost function Aim(q: seq<nat>, path: seq<nat>, num: nat, bno: nat, before: nat): int
    requires |q| >= 1 && |path| >= 1
  {
    if Hit(q, path, num) then bno + Delta(q, path) else before
  }

  /** From the pointer `v0` to `v1`: `num` data blocks from `bno` on have appeared
      at `path`, every other path leads where it led, and exactly the blocks
      `added` have joined the subtree. */
  ghost predicate Grafted(ptrs: nat, d0: Disk, v0: nat, d1: Disk, v1: nat, path: seq<nat>, num: nat, bno: nat,
      added: multiset<nat>) {
    && |path| >= 1 && Shaped(ptrs, d1, v1, |path|)
    && Sub(d1, v1, |path|) == Sub(d0, v0, |path|) + added
    && (forall q: seq<nat> :: |q| == |path| && InRange(ptrs, q) ==>
          Walk(d1, v1, q) == Aim(q, path, num, bno, Walk(d0, v0, q)))
  }

  /** `q` is a path to data through a node with `n` slots. */
  ghost predicate OfNode(ptrs: nat, n: nat, lv: Level, q: seq<nat>) {
    |q| >= 1 && q[0] < n && |q| == 1 + SlotHeight(lv, q[0]) && InRange(ptrs, q[1..])
  }

  /** The same for the pointers of a node. */
  ghost predicate SlotsGrafted(ptrs: nat, d0: Disk, s0: seq<nat>, d1: Disk, s1: seq<nat>, lv: Level,
                               path: seq<nat>, num: nat, bno: nat, added: multiset<nat>) {
    && |s0| == |s1| && |path| >= 1
    && ShapedSlots(ptrs, d1, s1, 0, |s1|, lv)
    && OwnAll(d1, s1, lv) == OwnAll(d0, s0, lv) + added
    && (forall q: seq<nat> :: OfNode(ptrs, |s0|, lv, q) ==>
          Walk(d1, s1[q[0]], q[1..]) == Aim(q, path, num, bno, Walk(d0, s0[q[0]], q[1..])))
  }

  // ----- a run of data blocks in one node -----

  /** `s` with the slots from `o` on set to `num` consecutive blocks from `bno` on. */
  function Filled(s: seq<nat>, o: nat, num: nat, bno: nat): (r: seq<nat>)
    requires o + num <= |s|
    ensures |r| == |s| && forall i :: 0 <= i < |s| ==> r[i] == if o <= i < o + num then bno + (i - o) else s[i]
    decreases num
  {
    if num == 0 then s else Filled(s, o, num - 1, bno)[o + num - 1 := bno + (num - 1)]
  }

  lemma RunLast(bno: nat, num: nat, last: nat)
    requires num > 0 && last == bno + (num - 1)
    ensures multiset(Run(bno, num)) == multiset(Run(bno, num - 1)) + multiset{last}
  {
    assert Run(bno, num) == Run(bno, num - 1) + [last];
  }

  lemma {:induction false} OwnRun(d: Disk, s: seq<nat>, o: nat, num: nat, bno: nat, lv: Level)
    requires o + num <= |s| && bno > 0
    requires forall i :: o <= i < o + num ==> s[i] == bno + (i - o) && SlotHeight(lv, i) == 0
    ensures Own(d, s, o, o + num, lv) == multiset(Run(bno, num))
    decreases num
  {
    hide Own, Sub, Shaped, Walk;
    if num == 0 {
      OwnNone(d, s, o, lv);
    } else {
      var last := o + num - 1;
      OwnRun(d, s, o, num - 1, bno, lv);
      OwnLast(d, s, o, o + num, lv);
      RunLast(bno, num, s[last]);
      assert s[last] == bno + (num - 1) && SlotHeight(lv, last) == 0;
      SubRoot(d, s[last], 0);
      hide Run;
    }
  }

  /** What the leaf node and the blocks it owns must look like before the graft. */
  ghost predicate Vacant(ptrs: nat, d0: Disk, s0: seq<nat>, d1: Disk, lv: Level, o: nat, num: nat) {
    && o + num <= |s0| && ShapedSlots(ptrs, d0, s0, 0, |s0|, lv) && Same(d0, d1, OwnAll(d0, s0, lv))
    && forall i :: o <= i < o + num ==> s0[i] == 0 && SlotHeight(lv, i) == 0
  }

  lemma VacantSlot(ptrs: nat, d0: Disk, s0: seq<nat>, d1: Disk, lv: Level, o: nat, num: nat, i: nat)
    requires Vacant(ptrs, d0, s0, d1, lv, o, num) && i < |s0|
    ensures Shaped(ptrs, d1, s0[i], SlotHeight(lv, i))
        && Sub(d1, s0[i], SlotHeight(lv, i)) == Sub(d0, s0[i], SlotHeight(lv, i))
    ensures forall q: seq<nat> :: |q| <= SlotHeight(lv, i) ==> Walk(d1, s0[i], q) == Walk(d0, s0[i], q)
  {
    hide Own, Sub, Shaped, Walk;
    OwnSlot(d0, s0, 0, i, |s0|, lv);
    Frame(ptrs, d0, d1, s0[i], SlotHeight(lv, i));
  }

  lemma LeafOwn(ptrs: nat, d0: Disk, s0: seq<nat>, d1: Disk, s1: seq<nat>, lv: Level, o: nat, num: nat, bno: nat)
    requires Vacant(ptrs, d0, s0, d1, lv, o, num) && bno > 0 && s1 == Filled(s0, o, num, bno)
    ensures OwnAll(d1, s1, lv) == OwnAll(d0, s0, lv) + multiset(Run(bno, num))
  {
    hide Own, Sub, Shaped, Walk;
    var e := o + num;
    var l, r, m := Own(d0, s0, 0, o, lv), Own(d0, s0, e, |s0|, lv), multiset(Run(bno, num));
    assert OwnAll(d0, s0, lv) == l + multiset{} + r by {
      OwnZeros(d0, s0, o, e, lv);
      ThreeRanges(d0, s0, o, e, lv);
    }
    var l1, r1, m1 := Own(d1, s1, 0, o, lv), Own(d1, s1, e, |s1|, lv), Own(d1, s1, o, e, lv);
    assert OwnAll(d1, s1, lv) == l1 + m1 + r1 by { ThreeRanges(d1, s1, o, e, lv); }
    assert l1 == l by { VacantOwn(ptrs, d0, s0, d1, s1, lv, o, num, 0, o); }
    assert r1 == r by { VacantOwn(ptrs, d0, s0, d1, s1, lv, o, num, e, |s0|); }
    assert m1 == multiset{} + m by { OwnRun(d1, s1, o, num, bno, lv); }
    Spliced(l, multiset{}, r, m);
  }

  lemma VacantOwn(ptrs: nat, d0: Disk, s0: seq<nat>, d1: Disk, s1: seq<nat>, lv: Level, o: nat, num: nat, lo: nat,
      hi: nat)
    requires Vacant(ptrs, d0, s0, d1, lv, o, num) && lo <= hi <= |s0| && |s1| == |s0|
    requires forall i :: lo <= i < hi ==> s1[i] == s0[i]
    ensures Own(d1, s1, lo, hi, lv) == Own(d0, s0, lo, hi, lv)
  {
    hide Own, Sub, Shaped, Walk;
    forall i | lo <= i < hi
      ensures Sub(d1, s1[i], SlotHeight(lv, i)) == Sub(d0, s0[i], SlotHeight(lv, i))
    {
      VacantSlot(ptrs, d0, s0, d1, lv, o, num, i);
    }
    OwnEqual(d0, d1, s0, s1, lo, hi, lv);
  }

  lemma Spliced(left: multiset<nat>, mid: multiset<nat>, right: multiset<nat>, added: multiset<nat>)
    ensures left + (mid + added) + right == left + mid + right + added
  {
  }

  lemma ThreeRanges(d: Disk, s: seq<nat>, o: nat, e: nat, lv: Level)
    requires o <= e <= |s|
    ensures OwnAll(d, s, lv) == Own(d, s, 0, o, lv) + Own(d, s, o, e, lv) + Own(d, s, e, |s|, lv)
  {
    OwnSplit(d, s, 0, e, |s|, lv);
    OwnSplit(d, s, 0, o, e, lv);
  }

  /** Filling vacant data slots with a run of new blocks. */
  lemma LeafGrafted(ptrs: nat, d0: Disk, s0: seq<nat>, d1: Disk, s1: seq<nat>, lv: Level, o: nat, num: nat, bno: nat)
    requires Vacant(ptrs, d0, s0, d1, lv, o, num) && bno > 0 && s1 == Filled(s0, o, num, bno)
    ensures SlotsGrafted(ptrs, d0, s0, d1, s1, lv, [o], num, bno, multiset(Run(bno, num)))
  {
    hide Own;
    LeafOwn(ptrs, d0, s0, d1, s1, lv, o, num, bno);
    forall i | 0 <= i < |s1| ensures Shaped(ptrs, d1, s1[i], SlotHeight(lv, i)) {
      VacantSlot(ptrs, d0, s0, d1, lv, o, num, i);
    }
    forall q: seq<nat> | OfNode(ptrs, |s0|, lv, q)
      ensures Walk(d1, s1[q[0]], q[1..]) == Aim(q, [o], num, bno, Walk(d0, s0[q[0]], q[1..]))
    {
      VacantSlot(ptrs, d0, s0, d1, lv, o, num, q[0]);
    }
  }

  // ----- one node up -----

  /** The node's slots but the one on the path hold what they held, and the
      branches there are untouched. */
  ghost predicate Beside(ptrs: nat, d0: Disk, s0: seq<nat>, d1: Disk, s1: seq<nat>, lv: Level, o: nat) {
    && o < |s0| == |s1| && (forall i :: 0 <= i < |s0| && i != o ==> s1[i] == s0[i])
    && ShapedSlots(ptrs, d0, s0, 0, |s0|, lv)
    && Same(d0, d1, Own(d0, s0, 0, o, lv)) && Same(d0, d1, Own(d0, s0, o + 1, |s0|, lv))
  }

  lemma BesideShaped(ptrs: nat, d0: Disk, s0: seq<nat>, d1: Disk, s1: seq<nat>, lv: Level, o: nat)
    requires Beside(ptrs, d0, s0, d1, s1, lv, o) && Shaped(ptrs, d1, s1[o], SlotHeight(lv, o))
    ensures ShapedSlots(ptrs, d1, s1, 0, |s1|, lv)
  {
    hide Own, Sub, Shaped, Walk;
    FrameSlots(ptrs, d0, d1, s0, s1, 0, o, lv);
    FrameSlots(ptrs, d0, d1, s0, s1, o + 1, |s0|, lv);
  }

  lemma BesideOwn(ptrs: nat, d0: Disk, s0: seq<nat>, d1: Disk, s1: seq<nat>, lv: Level, o: nat, added: multiset<nat>)
    requires Beside(ptrs, d0, s0, d1, s1, lv, o)
    requires Sub(d1, s1[o], SlotHeight(lv, o)) == Sub(d0, s0[o], SlotHeight(lv, o)) + added
    ensures OwnAll(d1, s1, lv) == OwnAll(d0, s0, lv) + added
  {
    hide Own, Sub, Shaped, Walk;
    var l, m, r := Own(d0, s0, 0, o, lv), Sub(d0, s0[o], SlotHeight(lv, o)), Own(d0, s0, o + 1, |s0|, lv);
    FrameSlots(ptrs, d0, d1, s0, s1, 0, o, lv);
    FrameSlots(ptrs, d0, d1, s0, s1, o + 1, |s0|, lv);
    OwnSlot(d0, s0, 0, o, |s0|, lv);
    OwnSlot(d1, s1, 0, o, |s1|, lv);
    Spliced(l, m, r, added);
  }

  lemma BesideWalk(ptrs: nat, d0: Disk, s0: seq<nat>, d1: Disk, s1: seq<nat>, lv: Level, o: nat, i: nat, q: seq<nat>)
    requires Beside(ptrs, d0, s0, d1, s1, lv, o) && i < |s0| && i != o && |q| <= SlotHeight(lv, i)
    ensures Walk(d1, s1[i], q) == Walk(d0, s0[i], q)
  {
    hide Own, Sub, Shaped, Walk;
    if i < o {
      FrameWalk(ptrs, d0, d1, s0, 0, o, lv, i, q);
    } else {
      FrameWalk(ptrs, d0, d1, s0, o + 1, |s0|, lv, i, q);
    }
  }

  /** A node whose slot on the path has got a grafted branch. */
  lemma SlotGrafted(ptrs: nat, d0: Disk, s0: seq<nat>, d1: Disk, s1: seq<nat>, lv: Level,
                    path: seq<nat>, num: nat, bno: nat, added: multiset<nat>)
    requires |path| >= 2 && Beside(ptrs, d0, s0, d1, s1, lv, path[0]) && |path| == 1 + SlotHeight(lv, path[0])
    requires Grafted(ptrs, d0, s0[path[0]], d1, s1[path[0]], path[1..], num, bno, added)
    ensures SlotsGrafted(ptrs, d0, s0, d1, s1, lv, path, num, bno, added)
  {
    hide Own, Sub, Shaped, Walk;
    var o := path[0];
    assert |path[1..]| == SlotHeight(lv, o);
    BesideShaped(ptrs, d0, s0, d1, s1, lv, o);
    BesideOwn(ptrs, d0, s0, d1, s1, lv, o, added);
    forall q: seq<nat> | OfNode(ptrs, |s0|, lv, q)
      ensures Walk(d1, s1[q[0]], q[1..]) == Aim(q, path, num, bno, Walk(d0, s0[q[0]], q[1..]))
    {
      if q[0] == o {
        assert |q[1..]| == |path[1..]| && Delta(q[1..], path[1..]) == Delta(q, path);
      } else {
        BesideWalk(ptrs, d0, s0, d1, s1, lv, o, q[0], q[1..]);
      }
    }
  }

  /** The block that holds the pointers of a grafted node. */
  lemma NodeGrafted(ptrs: nat, d0: Disk, s0: seq<nat>, d1: Disk, s1: seq<nat>, lv: Level, c: nat,
                    path: seq<nat>, num: nat, bno: nat, added: multiset<nat>)
    requires c != 0 && c in d0 && c in d1 && s0 == d0[c] && s1 == d1[c] && |s0| == ptrs
    requires |path| >= 1 && lv == Below(|path| - 1)
    requires SlotsGrafted(ptrs, d0, s0, d1, s1, lv, path, num, bno, added)
    ensures Grafted(ptrs, d0, c, d1, c, path, num, bno, added)
  {
    hide Own;
    var h := |path| - 1;
    assert Sub(d1, c, h + 1) == multiset{c} + OwnAll(d1, s1, lv);
    assert Sub(d0, c, h + 1) == multiset{c} + OwnAll(d0, s0, lv);
    forall q: seq<nat> | |q| == |path| && InRange(ptrs, q)
      ensures Walk(d1, c, q) == Aim(q, path, num, bno, Walk(d0, c, q))
    {
      assert OfNode(ptrs, ptrs, lv, q);
    }
  }

  /** The same for a new block, which held no pointers before. */
  lemma NewNodeGrafted(ptrs: nat, d0: Disk, d1: Disk, s0: seq<nat>, c: nat, path: seq<nat>, num: nat, bno: nat,
      added: multiset<nat>)
    requires c != 0 && c in d1 && |s0| == ptrs && |path| >= 1 && forall i :: 0 <= i < |s0| ==> s0[i] == 0
    requires SlotsGrafted(ptrs, d0, s0, d1, d1[c], Below(|path| - 1), path, num, bno, added)
    ensures Grafted(ptrs, d0, 0, d1, c, path, num, bno, multiset{c} + added)
  {
    hide Own;
    var h := |path| - 1;
    assert Sub(d1, c, h + 1) == multiset{c} + OwnAll(d1, d1[c], Below(h));
    OwnZeros(d0, s0, 0, |s0|, Below(h));
    forall q: seq<nat> | |q| == |path| && InRange(ptrs, q)
      ensures Walk(d1, c, q) == Aim(q, path, num, bno, Walk(d0, 0, q))
    {
      assert OfNode(ptrs, ptrs, Below(h), q);
      assert Walk(d0, s0[q[0]], q[1..]) == 0;
    }
  }

  // ----- the new branch -----

  ghost predicate Blank(ptrs: nat, z: seq<nat>) {
    |z| == ptrs && forall i :: 0 <= i < |z| ==> z[i] == 0
  }

  /** The blocks of a new branch from its `j`th block on; the last entry of `nb` is
      the first of `num` data blocks. */
  ghost function Taken(nb: seq<nat>, j: nat, num: nat): multiset<nat>
    requires j < |nb|
    decreases |nb| - j
  {
    if j == |nb| - 1 then multiset(Run(nb[j], num)) else multiset{nb[j]} + Taken(nb, j + 1, num)
  }

  /** All blocks of a new branch. */
  ghost function Branch(nb: seq<nat>, num: nat): multiset<nat>
    requires |nb| >= 1
  {
    Taken(nb, 0, num)
  }

  /** Block `j` of a new branch, as ext2_alloc_branch sets it up: all clear but for
      the pointer to the next block or, in the last one, the data pointers. */
  ghost predicate LinkedAt(d: Disk, z: seq<nat>, nb: seq<nat>, tail: seq<nat>, num: nat, j: nat)
    requires j + 1 < |nb| == |tail|
  {
    var n := if j + 2 == |nb| then num else 1;
    nb[j] in d && nb[j] != 0 && tail[j + 1] + n <= |z| && d[nb[j]] == Filled(z, tail[j + 1], n, nb[j + 1])
  }

  lemma BlankBeside(ptrs: nat, d0: Disk, z: seq<nat>, d: Disk, s: seq<nat>, lv: Level, o: nat)
    requires Blank(ptrs, z) && |s| == |z| && o < |s| && forall i :: 0 <= i < |s| && i != o ==> s[i] == z[i]
    ensures Beside(ptrs, d0, z, d, s, lv, o)
  {
    hide Own, Sub, Walk;
    OwnZeros(d0, z, 0, o, lv);
    OwnZeros(d0, z, o + 1, |z|, lv);
  }

  lemma BlankVacant(ptrs: nat, d0: Disk, z: seq<nat>, d: Disk, lv: Level, o: nat, num: nat)
    requires Blank(ptrs, z) && o + num <= |z| && lv == Below(0)
    ensures Vacant(ptrs, d0, z, d, lv, o, num)
  {
    OwnZeros(d0, z, 0, |z|, lv);
  }

  lemma {:induction false} BranchGrafted(ptrs: nat, d0: Disk, d: Disk, z: seq<nat>, nb: seq<nat>, tail: seq<nat>,
      num: nat, j: nat)
    requires j + 1 < |nb| == |tail| && Blank(ptrs, z) && num >= 1 && nb[|nb| - 1] > 0
    requires forall i :: j <= i < |nb| - 1 ==> LinkedAt(d, z, nb, tail, num, i)
    ensures Grafted(ptrs, d0, 0, d, nb[j], tail[j + 1..], num, nb[|nb| - 1], Taken(nb, j, num))
    decreases |nb| - j
  {
    hide Own, Sub, Shaped, Walk;
    assert LinkedAt(d, z, nb, tail, num, j);
    var rest, o, s, bno := tail[j + 1..], tail[j + 1], d[nb[j]], nb[|nb| - 1];
    var lv := Below(|rest| - 1);
    if j + 2 == |nb| {
      assert rest == [o];
      BlankVacant(ptrs, d0, z, d, lv, o, num);
      LeafGrafted(ptrs, d0, z, d, s, lv, o, num, bno);
      NewNodeGrafted(ptrs, d0, d, z, nb[j], rest, num, bno, Taken(nb, j + 1, num));
    } else {
      BranchGrafted(ptrs, d0, d, z, nb, tail, num, j + 1);
      assert rest[1..] == tail[j + 2..];
      BlankBeside(ptrs, d0, z, d, s, lv, o);
      SlotGrafted(ptrs, d0, z, d, s, lv, rest, num, bno, Taken(nb, j + 1, num));
      NewNodeGrafted(ptrs, d0, d, z, nb[j], rest, num, bno, Taken(nb, j + 1, num));
    }
  }

  // ----- up the chain -----

  function LevelAt(i: nat, path: seq<nat>): Level
    requires i < |path|
  {
    if i == 0 then Inode else Below(|path| - 1 - i)
  }

  /** The blocks owned by the slots of a node to the left of, in and to the right of
      slot `o`. */
  ghost function LeftOf(d: Disk, s: seq<nat>, lv: Level, o: nat): multiset<nat>
    requires o < |s|
  {
    Own(d, s, 0, o, lv)
  }

  ghost function InSlot(d: Disk, s: seq<nat>, lv: Level, o: nat): multiset<nat>
    requires o < |s|
  {
    Sub(d, s[o], SlotHeight(lv, o))
  }

  ghost function RightOf(d: Disk, s: seq<nat>, lv: Level, o: nat): multiset<nat>
    requires o < |s|
  {
    Own(d, s, o + 1, |s|, lv)
  }

  /** They belong to the file, and slot `o` shares no block with the others. */
  ghost predicate Exclusive(d: Disk, root: seq<nat>, s: seq<nat>, lv: Level, o: nat)
    requires o < |s|
  {
    var all, l, m, r := OwnAll(d, root, Inode), LeftOf(d, s, lv, o), InSlot(d, s, lv, o), RightOf(d, s, lv, o);
    l !! m && r !! m && Elements(l) <= Elements(all) && Elements(r) <= Elements(all)
  }

  /** What is known of the node at level `i` of a chain. */
  ghost predicate NodeAt(ptrs: nat, d: Disk, root: seq<nat>, path: seq<nat>, keys: seq<nat>, i: nat)
    requires i < |keys| && i < |path|
  {
    var s, o, lv := SlotsAt(i, keys, d, root), path[i], LevelAt(i, path);
    && o < |s| && s[o] == keys[i] && |path| - 1 - i == SlotHeight(lv, o)
    && ShapedSlots(ptrs, d, s, 0, |s|, lv) && Exclusive(d, root, s, lv, o)
    && (i > 0 ==> && |s| == ptrs && keys[i - 1] != 0
                  && keys[i - 1] !in InSlot(d, s, lv, o) && keys[i - 1] in OwnAll(d, root, Inode))
  }

  lemma RootNodeAt(ptrs: nat, d: Disk, root: seq<nat>, path: seq<nat>, keys: seq<nat>, i: nat)
    requires Tree(ptrs, d, root) && ValidPath(ptrs, path) && IsChain(d, root, path, keys) && i == 0
    ensures NodeAt(ptrs, d, root, path, keys, i)
  {
    hide Own, Sub, Shaped, Walk;
    OwnSlot(d, root, 0, path[0], |root|, Inode);
    ThreeParts(OwnAll(d, root, Inode), LeftOf(d, root, Inode, path[0]), InSlot(d, root, Inode, path[0]),
        RightOf(d, root, Inode, path[0]));
  }

  lemma ThreeParts(all: multiset<nat>, l: multiset<nat>, m: multiset<nat>, r: multiset<nat>)
    requires Unshared(all) && all == l + m + r
    ensures l !! m && r !! m && Elements(l) <= Elements(all) && Elements(r) <= Elements(all)
  {
    forall b | b in m ensures b !in l && b !in r { assert b in all; }
  }

  lemma BlockSlots(ptrs: nat, d: Disk, root: seq<nat>, c: nat, tail: seq<nat>)
    requires PathBlock(ptrs, d, c, tail) && Part(ptrs, d, root, c, |tail|)
    ensures Exclusive(d, root, d[c], Below(|tail| - 1), tail[0])
        && ShapedSlots(ptrs, d, d[c], 0, |d[c]|, Below(|tail| - 1))
    ensures c !in InSlot(d, d[c], Below(|tail| - 1), tail[0]) && c in OwnAll(d, root, Inode)
  {
    hide Own, Sub, Walk;
    PathBlockParts(ptrs, d, c, tail);
    var l, m, r := Before(ptrs, d, c, tail), On(ptrs, d, c, tail), After(ptrs, d, c, tail);
    var sub, all := Sub(d, c, |tail|), OwnAll(d, root, Inode);
    PartsWithin(sub, c, l, m, r, all);
    assert l == LeftOf(d, d[c], Below(|tail| - 1), tail[0]) && r == RightOf(d, d[c], Below(|tail| - 1), tail[0]);
  }

  lemma PartsWithin(sub: multiset<nat>, c: nat, l: multiset<nat>, m: multiset<nat>, r: multiset<nat>,
      all: multiset<nat>)
    requires sub == multiset{c} + (l + m + r) && Elements(sub) <= Elements(all)
    ensures Elements(l) <= Elements(all) && Elements(r) <= Elements(all) && c in all
  {
    assert Elements(l) <= Elements(sub) && Elements(r) <= Elements(sub) && c in Elements(sub);
  }

  lemma BlockNodeAt(ptrs: nat, d: Disk, root: seq<nat>, path: seq<nat>, keys: seq<nat>, i: nat)
    requires Tree(ptrs, d, root) && ValidPath(ptrs, path) && IsChain(d, root, path, keys) && 0 < i < |keys|
    ensures NodeAt(ptrs, d, root, path, keys, i)
  {
    hide Own, Sub, Walk;
    var c, tail := keys[i - 1], path[i..];
    var h := |path| - i;
    assert |tail| == h == |path| - 1 - (i - 1) && tail[0] == path[i];
    assert PathBlock(ptrs, d, c, tail) && keys[i] == d[c][path[i]] by { ChainSlot(ptrs, d, root, path, keys, i); }
    assert Part(ptrs, d, root, c, h) by { ChainParts(ptrs, d, root, path, keys, i - 1); }
    BlockSlots(ptrs, d, root, c, tail);
    assert SlotsAt(i, keys, d, root) == d[c] && LevelAt(i, path) == Below(|tail| - 1);
  }

  /** Of the blocks `m` only `c` may have changed. */
  ghost predicate SameBut(d0: Disk, d1: Disk, m: multiset<nat>, c: nat) {
    forall b :: b in m && b != c && b in d0 ==> b in d1 && d1[b] == d0[b]
  }

  lemma SameBeside(d0: Disk, d1: Disk, all: multiset<nat>, c: nat, part: multiset<nat>, m: multiset<nat>)
    requires SameBut(d0, d1, all, c) && Elements(part) <= Elements(all) && part !! m && c in m
    ensures Same(d0, d1, part)
  {
    forall b | b in part ensures b in all && b != c {
      assert b in Elements(part);
    }
  }

  ghost function BlocksOf(d: Disk, nr: nat, h: nat): set<nat> {
    Elements(Sub(d, nr, h))
  }

  /** A block of the chain lies below every pointer before it in the chain. */
  lemma {:induction false} KeyBelow(ptrs: nat, d: Disk, root: seq<nat>, path: seq<nat>, keys: seq<nat>, i: nat, k: nat,
      h: nat)
    requires Tree(ptrs, d, root) && ValidPath(ptrs, path) && IsChain(d, root, path, keys)
    requires i <= k < |keys| && keys[k] != 0 && h == |path| - 1 - i
    ensures keys[k] in BlocksOf(d, keys[i], h)
    decreases k - i
  {
    hide Own, Shaped, Walk;
    if i < k {
      KeyBelow(ptrs, d, root, path, keys, i + 1, k, h - 1);
      ChainSlot(ptrs, d, root, path, keys, i + 1);
      SlotBelow(ptrs, d, keys[i], path[i + 1..], h, keys[i + 1], keys[k]);
    }
  }

  lemma SlotBelow(ptrs: nat, d: Disk, c: nat, tail: seq<nat>, h: nat, v: nat, b: nat)
    requires PathBlock(ptrs, d, c, tail) && h == |tail| && v == d[c][tail[0]] && b in BlocksOf(d, v, h - 1)
    ensures b in BlocksOf(d, c, h)
  {
    hide Own, Sub, Shaped, Walk;
    PathBlockParts(ptrs, d, c, tail);
  }

  /** Everything but the node at level `k` is as it was. */
  ghost predicate OnlyAt(d0: Disk, root0: seq<nat>, d1: Disk, root1: seq<nat>, keys: seq<nat>, k: nat)
    requires k < |keys|
  {
    SameBut(d0, d1, OwnAll(d0, root0, Inode), BlockAt(k, keys)) && (k > 0 ==> root1 == root0)
  }

  /** The node at level `i` of the chain is grafted. */
  ghost predicate LevelGrafted(ptrs: nat, d0: Disk, root0: seq<nat>, d1: Disk, root1: seq<nat>, path: seq<nat>,
      keys: seq<nat>,
                               i: nat, num: nat, bno: nat, added: multiset<nat>)
    requires i < |path|
  {
    SlotsGrafted(ptrs, d0, SlotsAt(i, keys, d0, root0), d1, SlotsAt(i, keys, d1, root1), LevelAt(i, path), path[i..],
        num, bno, added)
  }

  lemma InSlotOf(d: Disk, s: seq<nat>, lv: Level, o: nat, v: nat, h: nat, b: nat)
    requires o < |s| && s[o] == v && h == SlotHeight(lv, o) && b in BlocksOf(d, v, h)
    ensures b in InSlot(d, s, lv, o)
  {
  }

  /** The nodes above level `k` hold the same pointers, and nothing of what their
      slots off the path own has changed. */
  lemma AboveBeside(ptrs: nat, d0: Disk, root0: seq<nat>, d1: Disk, root1: seq<nat>, path: seq<nat>, keys: seq<nat>,
      i: nat, k: nat, h: nat)
    requires i < k < |keys| && i < |path| && NodeAt(ptrs, d0, root0, path, keys, i)
    requires OnlyAt(d0, root0, d1, root1, keys, k)
    requires keys[k - 1] in BlocksOf(d0, keys[i], h) && h == |path| - 1 - i
    ensures SlotsAt(i, keys, d1, root1) == SlotsAt(i, keys, d0, root0)
    ensures Beside(ptrs, d0, SlotsAt(i, keys, d0, root0), d1, SlotsAt(i, keys, d1, root1), LevelAt(i, path), path[i])
  {
    hide Own, Sub, Shaped, Walk;
    var s, lv, o, all := SlotsAt(i, keys, d0, root0), LevelAt(i, path), path[i], OwnAll(d0, root0, Inode);
    InSlotOf(d0, s, lv, o, keys[i], h, keys[k - 1]);
    SameBeside(d0, d1, all, keys[k - 1], LeftOf(d0, s, lv, o), InSlot(d0, s, lv, o));
    SameBeside(d0, d1, all, keys[k - 1], RightOf(d0, s, lv, o), InSlot(d0, s, lv, o));
  }

  lemma ChainNode(ptrs: nat, d: Disk, root: seq<nat>, path: seq<nat>, keys: seq<nat>, i: nat)
    requires Tree(ptrs, d, root) && ValidPath(ptrs, path) && IsChain(d, root, path, keys) && i < |keys|
    ensures NodeAt(ptrs, d, root, path, keys, i)
  {
    hide Own, Sub, Shaped, Walk;
    if i == 0 {
      RootNodeAt(ptrs, d, root, path, keys, i);
    } else {
      BlockNodeAt(ptrs, d, root, path, keys, i);
    }
  }

  lemma ChainGrafted(ptrs: nat, d0: Disk, root0: seq<nat>, d1: Disk, root1: seq<nat>, path: seq<nat>, keys: seq<nat>,
                     i: nat, num: nat, bno: nat, added: multiset<nat>)
    requires Tree(ptrs, d0, root0) && ValidPath(ptrs, path) && IsChain(d0, root0, path, keys) && 0 < i < |keys|
    requires LevelGrafted(ptrs, d0, root0, d1, root1, path, keys, i, num, bno, added)
    ensures Grafted(ptrs, d0, keys[i - 1], d1, keys[i - 1], path[i..], num, bno, added)
  {
    hide Own, Sub, Shaped, Walk;
    ChainSlot(ptrs, d0, root0, path, keys, i);
    assert |path[i..]| == |path| - i;
    var s0, s1 := SlotsAt(i, keys, d0, root0), SlotsAt(i, keys, d1, root1);
    NodeGrafted(ptrs, d0, s0, d1, s1, LevelAt(i, path), keys[i - 1], path[i..], num, bno, added);
  }

  lemma ChainBeside(ptrs: nat, d0: Disk, root0: seq<nat>, d1: Disk, root1: seq<nat>, path: seq<nat>, keys: seq<nat>,
      i: nat, k: nat)
    requires Tree(ptrs, d0, root0) && ValidPath(ptrs, path) && IsChain(d0, root0, path, keys)
    requires i < k < |keys| && OnlyAt(d0, root0, d1, root1, keys, k)
    ensures SlotsAt(i, keys, d1, root1) == SlotsAt(i, keys, d0, root0)
    ensures path[i] < |SlotsAt(i, keys, d0, root0)| && SlotsAt(i, keys, d0, root0)[path[i]] == keys[i]
    ensures SlotHeight(LevelAt(i, path), path[i]) == |path| - 1 - i
    ensures Beside(ptrs, d0, SlotsAt(i, keys, d0, root0), d1, SlotsAt(i, keys, d1, root1), LevelAt(i, path), path[i])
  {
    hide Own, Sub, Shaped, Walk;
    ChainNode(ptrs, d0, root0, path, keys, i);
    KeyBelow(ptrs, d0, root0, path, keys, i, k - 1, |path| - 1 - i);
    AboveBeside(ptrs, d0, root0, d1, root1, path, keys, i, k, |path| - 1 - i);
  }

  lemma {:induction false} ClimbAll(ptrs: nat, d0: Disk, root0: seq<nat>, d1: Disk, root1: seq<nat>, path: seq<nat>,
      keys: seq<nat>,
                                    i: nat, k: nat, num: nat, bno: nat, added: multiset<nat>)
    requires Tree(ptrs, d0, root0) && ValidPath(ptrs, path) && IsChain(d0, root0, path, keys)
    requires i <= k < |keys| && OnlyAt(d0, root0, d1, root1, keys, k)
    requires LevelGrafted(ptrs, d0, root0, d1, root1, path, keys, i, num, bno, added)
    ensures SlotsGrafted(ptrs, d0, root0, d1, root1, Inode, path, num, bno, added)
    decreases i
  {
    hide Own, Sub, Shaped, Walk;
    if i == 0 {
      assert path[0..] == path;
    } else {
      var up, s := path[i - 1..], SlotsAt(i - 1, keys, d0, root0);
      assert up[1..] == path[i..] && up[0] == path[i - 1];
      ChainGrafted(ptrs, d0, root0, d1, root1, path, keys, i, num, bno, added);
      ChainBeside(ptrs, d0, root0, d1, root1, path, keys, i - 1, k);
      SlotGrafted(ptrs, d0, s, d1, s, LevelAt(i - 1, path), up, num, bno, added);
      ClimbAll(ptrs, d0, root0, d1, root1, path, keys, i - 1, k, num, bno, added);
    }
  }

  // ----- the node that receives the new branch -----

  /** What the node at level `k` owns does not contain the node itself. */
  lemma HostSame(ptrs: nat, d0: Disk, root0: seq<nat>, d1: Disk, root1: seq<nat>, path: seq<nat>, keys: seq<nat>,
      k: nat)
    requires Tree(ptrs, d0, root0) && ValidPath(ptrs, path) && IsChain(d0, root0, path, keys) && k < |keys|
    requires OnlyAt(d0, root0, d1, root1, keys, k)
    ensures Same(d0, d1, OwnAll(d0, SlotsAt(k, keys, d0, root0), LevelAt(k, path)))
  {
    hide Own, Walk;
    if k == 0 {
      OwnPositive(d0, root0, 0, |root0|, Inode);
    } else {
      ChainSlot(ptrs, d0, root0, path, keys, k);
      ChainParts(ptrs, d0, root0, path, keys, k - 1);
      BlockHostSame(ptrs, d0, root0, d1, keys[k - 1], |path| - k, d0[keys[k - 1]], LevelAt(k, path));
    }
  }

  lemma BlockHostSame(ptrs: nat, d0: Disk, root0: seq<nat>, d1: Disk, c: nat, h: nat, s: seq<nat>, lv: Level)
    requires c != 0 && c in d0 && s == d0[c] && h >= 1 && lv == Below(h - 1)
    requires Part(ptrs, d0, root0, c, h) && SameBut(d0, d1, OwnAll(d0, root0, Inode), c)
    ensures Same(d0, d1, OwnAll(d0, s, lv))
  {
    hide Own, Shaped, Walk;
    var own, sub := OwnAll(d0, s, lv), Sub(d0, c, h);
    assert sub == multiset{c} + own;
    UnsharedPart(sub, own, multiset{c});
    forall b | b in own ensures b in OwnAll(d0, root0, Inode) && b != c {
      assert b in Elements(sub);
    }
  }

  lemma HostBeside(ptrs: nat, d0: Disk, s0: seq<nat>, d1: Disk, s1: seq<nat>, lv: Level, o: nat)
    requires o < |s0| == |s1| && (forall i :: 0 <= i < |s0| && i != o ==> s1[i] == s0[i])
    requires ShapedSlots(ptrs, d0, s0, 0, |s0|, lv) && Same(d0, d1, OwnAll(d0, s0, lv))
    ensures Beside(ptrs, d0, s0, d1, s1, lv, o)
  {
    hide Own, Sub, Shaped, Walk;
    OwnSlot(d0, s0, 0, o, |s0|, lv);
  }

  /** The new branch is in place: the missing pointer at level `k` of the chain is
      set, and the blocks below it are linked. */
  ghost predicate InPlace(ptrs: nat, d0: Disk, s0: seq<nat>, d1: Disk, s1: seq<nat>, lv: Level, tail: seq<nat>,
      z: seq<nat>, nb: seq<nat>, num: nat) {
    && |nb| == |tail| >= 1 && num >= 1 && nb[|nb| - 1] > 0 && Blank(ptrs, z)
    && var n := if |nb| == 1 then num else 1;
    && tail[0] + n <= |s0| && s1 == Filled(s0, tail[0], n, nb[0])
    && (forall i :: tail[0] <= i < tail[0] + n ==> s0[i] == 0 && SlotHeight(lv, i) == |tail| - 1)
    && forall j :: 0 <= j < |nb| - 1 ==> LinkedAt(d1, z, nb, tail, num, j)
  }

  lemma HostLeaf(ptrs: nat, d0: Disk, s0: seq<nat>, d1: Disk, s1: seq<nat>, lv: Level, tail: seq<nat>, z: seq<nat>,
      nb: seq<nat>, num: nat)
    requires InPlace(ptrs, d0, s0, d1, s1, lv, tail, z, nb, num) && |nb| == 1
    requires ShapedSlots(ptrs, d0, s0, 0, |s0|, lv) && Same(d0, d1, OwnAll(d0, s0, lv))
    ensures SlotsGrafted(ptrs, d0, s0, d1, s1, lv, tail, num, nb[|nb| - 1], Branch(nb, num))
  {
    hide Own, Sub, Shaped, Walk;
    assert tail == [tail[0]];
    LeafGrafted(ptrs, d0, s0, d1, s1, lv, tail[0], num, nb[0]);
  }

  lemma HostBranch(ptrs: nat, d0: Disk, s0: seq<nat>, d1: Disk, s1: seq<nat>, lv: Level, tail: seq<nat>, z: seq<nat>,
      nb: seq<nat>, num: nat)
    requires InPlace(ptrs, d0, s0, d1, s1, lv, tail, z, nb, num) && |nb| > 1
    requires ShapedSlots(ptrs, d0, s0, 0, |s0|, lv) && Same(d0, d1, OwnAll(d0, s0, lv))
    ensures SlotsGrafted(ptrs, d0, s0, d1, s1, lv, tail, num, nb[|nb| - 1], Branch(nb, num))
  {
    hide Own, Sub, Shaped, Walk;
    var added := Branch(nb, num);
    BranchGrafted(ptrs, d0, d1, z, nb, tail, num, 0);
    HostBeside(ptrs, d0, s0, d1, s1, lv, tail[0]);
    SlotGrafted(ptrs, d0, s0, d1, s1, lv, tail, num, nb[|nb| - 1], added);
  }

  /** Splicing a new branch onto the chain grafts it onto the inode. */
  lemma SpliceGrafted(ptrs: nat, d0: Disk, root0: seq<nat>, d1: Disk, root1: seq<nat>, path: seq<nat>, keys: seq<nat>,
                      z: seq<nat>, nb: seq<nat>, num: nat, k: nat)
    requires Tree(ptrs, d0, root0) && ValidPath(ptrs, path) && IsChain(d0, root0, path, keys)
    requires k < |keys| && OnlyAt(d0, root0, d1, root1, keys, k)
    requires InPlace(ptrs, d0, SlotsAt(k, keys, d0, root0), d1, SlotsAt(k, keys, d1, root1), LevelAt(k, path),
        path[k..], z, nb, num)
    ensures SlotsGrafted(ptrs, d0, root0, d1, root1, Inode, path, num, nb[|nb| - 1], Branch(nb, num))
  {
    hide Own, Sub, Shaped, Walk;
    var s0, s1 := SlotsAt(k, keys, d0, root0), SlotsAt(k, keys, d1, root1);
    ChainNode(ptrs, d0, root0, path, keys, k);
    HostSame(ptrs, d0, root0, d1, root1, path, keys, k);
    if |nb| == 1 {
      HostLeaf(ptrs, d0, s0, d1, s1, LevelAt(k, path), path[k..], z, nb, num);
    } else {
      HostBranch(ptrs, d0, s0, d1, s1, LevelAt(k, path), path[k..], z, nb, num);
    }
    ClimbAll(ptrs, d0, root0, d1, root1, path, keys, k, k, num, nb[|nb| - 1], Branch(nb, num));
  }

  // ----- what the graft means -----

  lemma GraftedTree(ptrs: nat, d0: Disk, root0: seq<nat>, d1: Disk, root1: seq<nat>, path: seq<nat>, num: nat, bno: nat,
      added: multiset<nat>)
    requires Tree(ptrs, d0, root0) && SlotsGrafted(ptrs, d0, root0, d1, root1, Inode, path, num, bno, added)
    requires Unshared(added) && OwnAll(d0, root0, Inode) !! added
    ensures Tree(ptrs, d1, root1)
  {
    hide Own, Sub, Shaped, Walk;
  }

  /** The new blocks are mapped one after the other from `iblock` on, and every other
      mapping is as before. */
  lemma GraftMapping(ptrs: nat, d0: Disk, root0: seq<nat>, d1: Disk, root1: seq<nat>, iblock: nat, num: nat, bno: nat,
                     added: multiset<nat>, b: nat)
    requires ptrs >= NDIR && iblock < Limit(ptrs) && b < Limit(ptrs) && |root0| == |root1| == NSLOTS
    requires var p := BlockToPath(ptrs, iblock);
             && num <= p.boundary + 1 && |p.offsets| >= 1
             && SlotsGrafted(ptrs, d0, root0, d1, root1, Inode, p.offsets, num, bno, added)
    ensures Mapping(ptrs, d1, root1, b)
            == if iblock <= b < iblock + num then bno + (b - iblock) else Mapping(ptrs, d0, root0, b)
  {
    hide Own, Sub, Shaped, Walk, BlockToPath, ValidPath, PathToBlock;
    var p, q := BlockToPath(ptrs, iblock).offsets, BlockToPath(ptrs, b).offsets;
    BlockRoundTrip(ptrs, b);
    assert OfNode(ptrs, |root0|, Inode, q);
    HitRange(ptrs, iblock, num, b);
  }

  /** A path that is hit is that of one of the blocks `iblock` to `iblock + num - 1`. */
  lemma HitBlock(ptrs: nat, iblock: nat, num: nat, b: nat)
    requires ptrs >= NDIR && iblock < Limit(ptrs) && b < Limit(ptrs) && num <= BlockToPath(ptrs, iblock).boundary + 1
    requires var p, q := BlockToPath(ptrs, iblock).offsets, BlockToPath(ptrs, b).offsets;
             |p| >= 1 && |q| >= 1 && Hit(q, p, num)
    ensures var p, q := BlockToPath(ptrs, iblock).offsets, BlockToPath(ptrs, b).offsets;
            b == iblock + Delta(q, p) && 0 <= Delta(q, p) < num
  {
    hide Own, Sub, Shaped, Walk, BlockToPath, ValidPath, PathToBlock;
    var p, q := BlockToPath(ptrs, iblock).offsets, BlockToPath(ptrs, b).offsets;
    HitBump(q, p, num);
    BoundaryCounts(ptrs, iblock, Delta(q, p));
    BlockRoundTrip(ptrs, b);
    BlockRoundTrip(ptrs, iblock + Delta(q, p));
  }

  /** The paths that are hit are those of the blocks `iblock` to `iblock + num - 1`. */
  lemma HitRange(ptrs: nat, iblock: nat, num: nat, b: nat)
    requires ptrs >= NDIR && iblock < Limit(ptrs) && b < Limit(ptrs) && num <= BlockToPath(ptrs, iblock).boundary + 1
    ensures var p, q := BlockToPath(ptrs, iblock).offsets, BlockToPath(ptrs, b).offsets;
            && |p| >= 1 && |q| >= 1
            && (Hit(q, p, num) <==> iblock <= b < iblock + num)
            && (Hit(q, p, num) ==> Delta(q, p) == b - iblock)
  {
    hide Own, Sub, Shaped, Walk, BlockToPath, ValidPath, PathToBlock;
    var p, q := BlockToPath(ptrs, iblock).offsets, BlockToPath(ptrs, b).offsets;
    BlockRoundTrip(ptrs, b);
    BoundaryCounts(ptrs, iblock, 0);
    if iblock <= b < iblock + num {
      BoundaryCounts(ptrs, iblock, b - iblock);
      HitBump(q, p, num);
    }
    if Hit(q, p, num) {
      HitBlock(ptrs, iblock, num, b);
    }
  }
}

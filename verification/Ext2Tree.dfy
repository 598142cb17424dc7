/** The block tree as a value (io_uring/inode.c): which blocks a pointer owns,
    which data block a path leads to, and how the two change when the tree is
    cut along a path. */
module Ext2Tree {
  import opened Ext2Path

  /** Contents of the indirect blocks, by block number. Zero is "no block". */
  type Disk = map<nat, seq<nat>>

  /** An array of pointers is the inode's, whose slots have their own heights, or
      that of an indirect block whose slots all have height `h`. */
  datatype Level = Inode | Below(h: nat)

  function SlotHeight(lv: Level, i: nat): nat {
    match lv
    case Inode => Height(i)
    case Below(h) => h
  }

  function Rank(lv: Level): nat {
    match lv
    case Inode => 4
    case Below(h) => h
  }

  /** Every block, data and indirect, of the subtree of height `h` under `nr`. */
  ghost function Sub(d: Disk, nr: nat, h: nat): multiset<nat>
    decreases h, 0, 0
  {
    if nr == 0 then multiset{}
    else if h == 0 || nr !in d then multiset{nr}
    else multiset{nr} + Own(d, d[nr], 0, |d[nr]|, Below(h - 1))
  }

  /** The blocks owned by the slots `lo` to `hi - 1` of `s`. */
  ghost function Own(d: Disk, s: seq<nat>, lo: nat, hi: nat, lv: Level): multiset<nat>
    requires lo <= hi <= |s|
    decreases Rank(lv), 1, hi
  {
    if lo == hi then multiset{}
    else Own(d, s, lo, hi - 1, lv) + Sub(d, s[hi - 1], SlotHeight(lv, hi - 1))
  }

  ghost function OwnAll(d: Disk, s: seq<nat>, lv: Level): multiset<nat> {
    Own(d, s, 0, |s|, lv)
  }

  /** The block that `q` leads to below `nr`, or zero. */
  function Walk(d: Disk, nr: nat, q: seq<nat>): nat
    decreases |q|
  {
    if nr == 0 || q == [] then nr
    else if nr in d && q[0] < |d[nr]| then Walk(d, d[nr][q[0]], q[1..])
    else 0
  }

  /** All indirect blocks of the subtree exist and hold `ptrs` pointers. */
  ghost predicate Shaped(ptrs: nat, d: Disk, nr: nat, h: nat)
    decreases h
  {
    nr == 0 || h == 0 ||
    (nr in d && |d[nr]| == ptrs && forall i :: 0 <= i < ptrs ==> Shaped(ptrs, d, d[nr][i], h - 1))
  }

  ghost predicate ShapedSlots(ptrs: nat, d: Disk, s: seq<nat>, lo: nat, hi: nat, lv: Level)
    requires hi <= |s|
  {
    forall i :: lo <= i < hi ==> Shaped(ptrs, d, s[i], SlotHeight(lv, i))
  }

  /** No block is used twice. */
  ghost predicate Unshared(m: multiset<nat>) {
    forall b :: b in m ==> m[b] == 1
  }

  /** The two disks agree on the blocks of `m`. */
  ghost predicate Same(d0: Disk, d1: Disk, m: multiset<nat>) {
    forall b :: b in m && b in d0 ==> b in d1 && d1[b] == d0[b]
  }

  // ----- ownership -----

  lemma SumAssoc(a: multiset<nat>, b: multiset<nat>, c: multiset<nat>)
    ensures (a + b) + c == a + (b + c)
  {
  }

  lemma {:induction false} OwnSplit(d: Disk, s: seq<nat>, lo: nat, mid: nat, hi: nat, lv: Level)
    requires lo <= mid <= hi <= |s|
    ensures Own(d, s, lo, hi, lv) == Own(d, s, lo, mid, lv) + Own(d, s, mid, hi, lv)
    decreases hi
  {
    hide Own, Sub, Shaped, Walk;
    if mid < hi {
      OwnSplit(d, s, lo, mid, hi - 1, lv);
      OwnLast(d, s, lo, hi, lv);
      OwnLast(d, s, mid, hi, lv);
      SumAssoc(Own(d, s, lo, mid, lv), Own(d, s, mid, hi - 1, lv), Sub(d, s[hi - 1], SlotHeight(lv, hi - 1)));
    } else {
      OwnNone(d, s, mid, lv);
    }
  }

  lemma OwnSlot(d: Disk, s: seq<nat>, lo: nat, i: nat, hi: nat, lv: Level)
    requires lo <= i < hi <= |s|
    ensures Own(d, s, lo, hi, lv)
            == Own(d, s, lo, i, lv) + Sub(d, s[i], SlotHeight(lv, i)) + Own(d, s, i + 1, hi, lv)
  {
    OwnSplit(d, s, lo, i + 1, hi, lv);
  }

  lemma OwnNone(d: Disk, s: seq<nat>, lo: nat, lv: Level)
    requires lo <= |s|
    ensures Own(d, s, lo, lo, lv) == multiset{}
  {
  }

  lemma OwnLast(d: Disk, s: seq<nat>, lo: nat, hi: nat, lv: Level)
    requires lo < hi <= |s|
    ensures Own(d, s, lo, hi, lv) == Own(d, s, lo, hi - 1, lv) + Sub(d, s[hi - 1], SlotHeight(lv, hi - 1))
  {
    hide Sub, Shaped, Walk;
  }

  lemma SubRoot(d: Disk, nr: nat, h: nat)
    requires nr != 0
    ensures nr in Sub(d, nr, h) && Sub(d, nr, 0) == multiset{nr}
  {
    hide Own, Shaped, Walk;
  }

  lemma OwnSkip(d: Disk, s: seq<nat>, lo: nat, p: nat, lv: Level)
    requires lo <= p < |s| && s[p] == 0
    ensures Own(d, s, lo, p + 1, lv) == Own(d, s, lo, p, lv)
  {
  }

  /** An indirect block: what it owns, its shape and where paths through it lead. */
  lemma BlockNode(ptrs: nat, d: Disk, c: nat, h: nat)
    requires c != 0 && c in d && |d[c]| == ptrs && h >= 1
    ensures Sub(d, c, h) == multiset{c} + OwnAll(d, d[c], Below(h - 1))
    ensures Shaped(ptrs, d, c, h) <==> ShapedSlots(ptrs, d, d[c], 0, |d[c]|, Below(h - 1))
    ensures forall q: seq<nat> :: |q| == h && InRange(ptrs, q) ==> Walk(d, c, q) == Walk(d, d[c][q[0]], q[1..])
  {
    BlockOwns(d, c, h);
    BlockShape(ptrs, d, c, h);
    hide Own, Sub, Shaped;
  }

  lemma BlockOwns(d: Disk, c: nat, h: nat)
    requires c != 0 && c in d && h >= 1
    ensures Sub(d, c, h) == multiset{c} + OwnAll(d, d[c], Below(h - 1))
  {
    hide Own, Shaped, Walk;
  }

  lemma BlockShape(ptrs: nat, d: Disk, c: nat, h: nat)
    requires c != 0 && c in d && |d[c]| == ptrs && h >= 1
    ensures Shaped(ptrs, d, c, h) <==> ShapedSlots(ptrs, d, d[c], 0, |d[c]|, Below(h - 1))
  {
    hide Own, Sub, Walk;
    assert Shaped(ptrs, d, c, h) <==> forall i :: 0 <= i < ptrs ==> Shaped(ptrs, d, d[c][i], h - 1);
    hide Shaped;
  }

  lemma ShapedBlock(ptrs: nat, d: Disk, c: nat, h: nat)
    requires c != 0 && h >= 1 && Shaped(ptrs, d, c, h)
    ensures c in d && |d[c]| == ptrs && ShapedSlots(ptrs, d, d[c], 0, |d[c]|, Below(h - 1))
    ensures Sub(d, c, h) == OwnAll(d, d[c], Below(h - 1)) + multiset{c}
  {
    hide Own, Walk;
  }

  lemma {:induction false} OwnEqual(d0: Disk, d1: Disk, s0: seq<nat>, s1: seq<nat>, lo: nat, hi: nat, lv: Level)
    requires lo <= hi <= |s0| && hi <= |s1|
    requires forall i :: lo <= i < hi ==> Sub(d1, s1[i], SlotHeight(lv, i)) == Sub(d0, s0[i], SlotHeight(lv, i))
    ensures Own(d1, s1, lo, hi, lv) == Own(d0, s0, lo, hi, lv)
    decreases hi
  {
    hide Sub, Shaped, Walk;
    if lo < hi {
      OwnEqual(d0, d1, s0, s1, lo, hi - 1, lv);
    }
  }

  lemma {:induction false} OwnZeros(d: Disk, s: seq<nat>, lo: nat, hi: nat, lv: Level)
    requires lo <= hi <= |s| && forall i :: lo <= i < hi ==> s[i] == 0
    ensures Own(d, s, lo, hi, lv) == multiset{}
    decreases hi
  {
    if lo < hi {
      OwnZeros(d, s, lo, hi - 1, lv);
    }
  }

  lemma {:induction false} SubPositive(d: Disk, nr: nat, h: nat)
    ensures 0 !in Sub(d, nr, h)
    decreases h, 0, 0
  {
    if nr != 0 && h > 0 && nr in d {
      OwnPositive(d, d[nr], 0, |d[nr]|, Below(h - 1));
    }
  }

  lemma {:induction false} OwnPositive(d: Disk, s: seq<nat>, lo: nat, hi: nat, lv: Level)
    requires lo <= hi <= |s|
    ensures 0 !in Own(d, s, lo, hi, lv)
    decreases Rank(lv), 1, hi
  {
    hide Sub, Shaped, Walk;
    if lo < hi {
      OwnPositive(d, s, lo, hi - 1, lv);
      SubPositive(d, s[hi - 1], SlotHeight(lv, hi - 1));
    }
  }

  // ----- a subtree does not notice changes to blocks that are not its own -----

  lemma {:induction false} Frame(ptrs: nat, d0: Disk, d1: Disk, nr: nat, h: nat)
    requires Shaped(ptrs, d0, nr, h) && Same(d0, d1, Sub(d0, nr, h))
    ensures Shaped(ptrs, d1, nr, h) && Sub(d1, nr, h) == Sub(d0, nr, h)
    ensures forall q: seq<nat> :: |q| <= h ==> Walk(d1, nr, q) == Walk(d0, nr, q)
    decreases h, 0
  {
    hide Own;
    if nr != 0 && h > 0 {
      var s := d0[nr];
      assert nr in Sub(d0, nr, h);
      assert d1[nr] == s;
      FrameSlots(ptrs, d0, d1, s, s, 0, |s|, Below(h - 1));
      forall q: seq<nat> | |q| <= h ensures Walk(d1, nr, q) == Walk(d0, nr, q) {
        if q != [] && q[0] < |s| {
          FrameWalk(ptrs, d0, d1, s, 0, |s|, Below(h - 1), q[0], q[1..]);
        }
      }
    }
  }

  lemma FrameSlots(ptrs: nat, d0: Disk, d1: Disk, s0: seq<nat>, s1: seq<nat>, lo: nat, hi: nat, lv: Level)
    requires lo <= hi <= |s0| && hi <= |s1| && forall i :: lo <= i < hi ==> s1[i] == s0[i]
    requires ShapedSlots(ptrs, d0, s0, lo, hi, lv) && Same(d0, d1, Own(d0, s0, lo, hi, lv))
    ensures ShapedSlots(ptrs, d1, s1, lo, hi, lv)
    ensures Own(d1, s1, lo, hi, lv) == Own(d0, s0, lo, hi, lv)
    decreases Rank(lv), 1
  {
    hide Own, Sub, Shaped, Walk;
    forall i | lo <= i < hi
      ensures Shaped(ptrs, d1, s1[i], SlotHeight(lv, i))
      ensures Sub(d1, s1[i], SlotHeight(lv, i)) == Sub(d0, s0[i], SlotHeight(lv, i))
    {
      OwnSlot(d0, s0, lo, i, hi, lv);
      Frame(ptrs, d0, d1, s0[i], SlotHeight(lv, i));
    }
    OwnEqual(d0, d1, s0, s1, lo, hi, lv);
  }

  lemma FrameWalk(ptrs: nat, d0: Disk, d1: Disk, s: seq<nat>, lo: nat, hi: nat, lv: Level, i: nat, q: seq<nat>)
    requires lo <= i < hi <= |s| && |q| <= SlotHeight(lv, i)
    requires ShapedSlots(ptrs, d0, s, lo, hi, lv) && Same(d0, d1, Own(d0, s, lo, hi, lv))
    ensures Walk(d1, s[i], q) == Walk(d0, s[i], q)
    decreases Rank(lv), 1
  {
    hide Own, Sub, Shaped, Walk;
    OwnSlot(d0, s, lo, i, hi, lv);
    Frame(ptrs, d0, d1, s[i], SlotHeight(lv, i));
  }

  // ----- cutting a tree along a path -----

  /** From the pointer `v0` to `v1`: data before `path` is kept, data at or after
      it is gone, and exactly the blocks `freed` have left the subtree. */
  ghost predicate Trimmed(ptrs: nat, d0: Disk, v0: nat, d1: Disk, v1: nat, path: seq<nat>, freed: multiset<nat>) {
    && Shaped(ptrs, d1, v1, |path|)
    && Sub(d0, v0, |path|) == Sub(d1, v1, |path|) + freed
    && (forall q: seq<nat> :: |q| == |path| && InRange(ptrs, q) ==>
          Walk(d1, v1, q) == if Less(q, path) then Walk(d0, v0, q) else 0)
  }

  /** No data lies before `path`. */
  ghost predicate Barren(ptrs: nat, d: Disk, v: nat, path: seq<nat>) {
    forall q: seq<nat> :: |q| == |path| && InRange(ptrs, q) && Less(q, path) ==> Walk(d, v, q) == 0
  }

  /** Removing a whole subtree trims it along `path` if nothing lies before. */
  lemma TrimAll(ptrs: nat, d0: Disk, v: nat, d1: Disk, path: seq<nat>)
    requires Barren(ptrs, d0, v, path)
    ensures Trimmed(ptrs, d0, v, d1, 0, path, Sub(d0, v, |path|))
  {
    hide Own;
    forall q: seq<nat> | |q| == |path| && InRange(ptrs, q)
      ensures Walk(d1, 0, q) == if Less(q, path) then Walk(d0, v, q) else 0
    {
    }
  }

  lemma {:induction false} NothingBeforeZeros(q: seq<nat>, path: seq<nat>)
    requires |q| == |path| && forall i :: 0 <= i < |path| ==> path[i] == 0
    ensures !Less(q, path)
  {
    if q != [] {
      NothingBeforeZeros(q[1..], path[1..]);
    }
  }

  lemma BarrenZeros(ptrs: nat, d: Disk, v: nat, path: seq<nat>)
    requires forall i :: 0 <= i < |path| ==> path[i] == 0
    ensures Barren(ptrs, d, v, path)
  {
    forall q: seq<nat> | |q| == |path| ensures !Less(q, path) {
      NothingBeforeZeros(q, path);
    }
  }

  /** One level up: a block whose slots before the path are empty is barren. */
  lemma BarrenUp(ptrs: nat, d: Disk, c: nat, path: seq<nat>)
    requires |path| >= 1 && path[0] < ptrs && c in d && |d[c]| == ptrs
    requires forall j :: 0 <= j < path[0] ==> d[c][j] == 0
    requires Barren(ptrs, d, d[c][path[0]], path[1..])
    ensures Barren(ptrs, d, c, path)
  {
    hide Own, Sub, Shaped;
    forall q: seq<nat> | |q| == |path| && InRange(ptrs, q) && Less(q, path) ensures Walk(d, c, q) == 0 {
      if c != 0 {
        assert Walk(d, c, q) == Walk(d, d[c][q[0]], q[1..]);
      }
    }
  }

  /** Pointers `s0` have become `s1`: the slots before the path and their
      subtrees are as they were, the slots after it are clear. */
  ghost predicate ClearedAfter(ptrs: nat, d0: Disk, s0: seq<nat>, d1: Disk, s1: seq<nat>, o: nat, lv: Level) {
    && |s0| == |s1| && o < |s0|
    && (forall i :: 0 <= i < o ==> s1[i] == s0[i])
    && (forall i :: o < i < |s1| ==> s1[i] == 0)
    && ShapedSlots(ptrs, d0, s0, 0, |s0|, lv)
    && Same(d0, d1, Own(d0, s0, 0, o, lv))
  }

  lemma TrimShape(ptrs: nat, d0: Disk, s0: seq<nat>, d1: Disk, s1: seq<nat>, o: nat, lv: Level)
    requires ClearedAfter(ptrs, d0, s0, d1, s1, o, lv) && Shaped(ptrs, d1, s1[o], SlotHeight(lv, o))
    ensures ShapedSlots(ptrs, d1, s1, 0, |s1|, lv)
  {
    hide Own, Sub, Walk;
    FrameSlots(ptrs, d0, d1, s0, s1, 0, o, lv);
  }

  lemma TrimRemains(ptrs: nat, d0: Disk, s0: seq<nat>, d1: Disk, s1: seq<nat>, o: nat, lv: Level)
    requires ClearedAfter(ptrs, d0, s0, d1, s1, o, lv)
    ensures OwnAll(d1, s1, lv) == Own(d0, s0, 0, o, lv) + Sub(d1, s1[o], SlotHeight(lv, o))
  {
    hide Own, Sub, Shaped, Walk;
    OwnSlot(d1, s1, 0, o, |s1|, lv);
    FrameSlots(ptrs, d0, d1, s0, s1, 0, o, lv);
    OwnZeros(d1, s1, o + 1, |s1|, lv);
  }

  lemma Regroup(left: multiset<nat>, before: multiset<nat>, right: multiset<nat>, after: multiset<nat>,
      freed: multiset<nat>)
    requires before == after + freed
    ensures left + before + right == left + after + (freed + right)
  {
  }

  /** The blocks before are the blocks left, those freed at the slot on the path
      and those of the slots cleared after it. */
  lemma TrimBlocks(ptrs: nat, d0: Disk, s0: seq<nat>, d1: Disk, s1: seq<nat>, o: nat, lv: Level, freed: multiset<nat>)
    requires ClearedAfter(ptrs, d0, s0, d1, s1, o, lv)
    requires Sub(d0, s0[o], SlotHeight(lv, o)) == Sub(d1, s1[o], SlotHeight(lv, o)) + freed
    ensures OwnAll(d0, s0, lv) == OwnAll(d1, s1, lv) + (freed + Own(d0, s0, o + 1, |s0|, lv))
  {
    OwnSlot(d0, s0, 0, o, |s0|, lv);
    TrimRemains(ptrs, d0, s0, d1, s1, o, lv);
    Regroup(Own(d0, s0, 0, o, lv), Sub(d0, s0[o], SlotHeight(lv, o)), Own(d0, s0, o + 1, |s0|, lv),
            Sub(d1, s1[o], SlotHeight(lv, o)), freed);
  }

  lemma TrimWalk(ptrs: nat, d0: Disk, s0: seq<nat>, d1: Disk, s1: seq<nat>, path: seq<nat>, lv: Level,
      freed: multiset<nat>, q: seq<nat>)
    requires |path| >= 1 && ClearedAfter(ptrs, d0, s0, d1, s1, path[0], lv)
    requires Trimmed(ptrs, d0, s0[path[0]], d1, s1[path[0]], path[1..], freed)
    requires |q| >= 1 && q[0] < |s0| && |q| == 1 + SlotHeight(lv, q[0]) && InRange(ptrs, q[1..])
    requires |path| == 1 + SlotHeight(lv, path[0])
    ensures Walk(d1, s1[q[0]], q[1..]) == if Less(q, path) then Walk(d0, s0[q[0]], q[1..]) else 0
  {
    hide Own, Sub, Shaped;
    if q[0] < path[0] {
      FrameWalk(ptrs, d0, d1, s0, 0, path[0], lv, q[0], q[1..]);
    }
  }

  /** One level up: a block with a trimmed slot, and clear after it, is trimmed. */
  lemma TrimNode(ptrs: nat, d0: Disk, d1: Disk, c: nat, path: seq<nat>, freed: multiset<nat>)
    requires |path| >= 1 && InRange(ptrs, path)
    requires c != 0 && c in d0 && |d0[c]| == ptrs && c in d1 && |d1[c]| == ptrs
    requires ClearedAfter(ptrs, d0, d0[c], d1, d1[c], path[0], Below(|path| - 1))
    requires Trimmed(ptrs, d0, d0[c][path[0]], d1, d1[c][path[0]], path[1..], freed)
    ensures Trimmed(ptrs, d0, c, d1, c, path, freed + Own(d0, d0[c], path[0] + 1, ptrs, Below(|path| - 1)))
  {
    hide Own, Sub, Shaped, Walk;
    var lv := Below(|path| - 1);
    BlockNode(ptrs, d0, c, |path|);
    BlockNode(ptrs, d1, c, |path|);
    TrimShape(ptrs, d0, d0[c], d1, d1[c], path[0], lv);
    TrimBlocks(ptrs, d0, d0[c], d1, d1[c], path[0], lv, freed);
    Regroup(multiset{c}, OwnAll(d0, d0[c], lv), multiset{}, OwnAll(d1, d1[c], lv),
        freed + Own(d0, d0[c], path[0] + 1, ptrs, lv));
    forall q: seq<nat> | |q| == |path| && InRange(ptrs, q)
      ensures Walk(d1, c, q) == if Less(q, path) then Walk(d0, c, q) else 0
    {
      TrimWalk(ptrs, d0, d0[c], d1, d1[c], path, lv, freed, q);
    }
  }

  // ----- the inode -----

  /** A well-formed block tree without shared blocks. */
  ghost predicate Tree(ptrs: nat, d: Disk, root: seq<nat>) {
    && |root| == NSLOTS
    && ShapedSlots(ptrs, d, root, 0, |root|, Inode)
    && Unshared(OwnAll(d, root, Inode))
  }

  /** The data block of logical block `iblock`, or zero. */
  function Mapping(ptrs: nat, d: Disk, root: seq<nat>, iblock: nat): nat
    requires ptrs >= NDIR && |root| == NSLOTS && iblock < Limit(ptrs)
  {
    BlockRoundTrip(ptrs, iblock);
    var q := BlockToPath(ptrs, iblock).offsets;
    Walk(d, root[q[0]], q[1..])
  }

  lemma EmptyTree(ptrs: nat, d: Disk, root: seq<nat>)
    requires |root| == NSLOTS && forall i :: 0 <= i < |root| ==> root[i] == 0
    ensures Tree(ptrs, d, root) && OwnAll(d, root, Inode) == multiset{}
  {
    hide Own, Sub, Walk;
    OwnZeros(d, root, 0, |root|, Inode);
  }

  /** A tree of one indirect block `c` with one data block `b`. */
  lemma SmallTree(ptrs: nat, d: Disk, root: seq<nat>, slot: nat, c: nat, b: nat)
    requires |root| == NSLOTS && slot < NSLOTS && Height(slot) == 1 && 0 < c < b && c in d && |d[c]| == ptrs >= 1
    requires forall i :: 0 <= i < |root| ==> root[i] == if i == slot then c else 0
    requires forall i :: 0 <= i < ptrs ==> d[c][i] == if i == 0 then b else 0
    ensures Tree(ptrs, d, root)
  {
    SmallOwn(ptrs, d, root, slot, c, b);
    hide Own, Sub, Walk;
  }

  lemma SmallOwn(ptrs: nat, d: Disk, root: seq<nat>, slot: nat, c: nat, b: nat)
    requires |root| == NSLOTS && slot < NSLOTS && Height(slot) == 1 && 0 < c < b && c in d && |d[c]| == ptrs >= 1
    requires forall i :: 0 <= i < |root| ==> root[i] == if i == slot then c else 0
    requires forall i :: 0 <= i < ptrs ==> d[c][i] == if i == 0 then b else 0
    ensures OwnAll(d, root, Inode) == multiset{c, b}
  {
    hide Own, Sub, Shaped, Walk;
    OwnSlot(d, root, 0, slot, |root|, Inode);
    OwnZeros(d, root, 0, slot, Inode);
    OwnZeros(d, root, slot + 1, |root|, Inode);
    BlockOwns(d, c, 1);
    OwnSlot(d, d[c], 0, 0, ptrs, Below(0));
    OwnNone(d, d[c], 0, Below(0));
    OwnZeros(d, d[c], 1, ptrs, Below(0));
    SubRoot(d, b, 0);
  }

  lemma UnsharedPart(m: multiset<nat>, part: multiset<nat>, rest: multiset<nat>)
    requires Unshared(m) && m == part + rest
    ensures Unshared(part) && part !! rest
  {
    forall b | b in part ensures part[b] == 1 && b !in rest {
      assert b in m;
    }
  }

  /** A truncation that trims the slot on the path of block `cut` and clears the
      slots after it keeps every mapping below `cut` and removes the others. */
  lemma TrimMapping(ptrs: nat, d0: Disk, root0: seq<nat>, d1: Disk, root1: seq<nat>, cut: nat, freed: multiset<nat>,
      b: nat)
    requires ptrs >= NDIR && cut < Limit(ptrs) && b < Limit(ptrs) && |root0| == |root1| == NSLOTS
    requires var path := BlockToPath(ptrs, cut).offsets;
             && |path| >= 1
             && ClearedAfter(ptrs, d0, root0, d1, root1, path[0], Inode)
             && Trimmed(ptrs, d0, root0[path[0]], d1, root1[path[0]], path[1..], freed)
    ensures Mapping(ptrs, d1, root1, b) == if b < cut then Mapping(ptrs, d0, root0, b) else 0
  {
    hide Own, Sub, Shaped, Walk;
    BlockRoundTrip(ptrs, cut);
    BlockRoundTrip(ptrs, b);
    var path, q := BlockToPath(ptrs, cut).offsets, BlockToPath(ptrs, b).offsets;
    PathBlockOrder(ptrs, q, path);
    TrimWalk(ptrs, d0, root0, d1, root1, path, Inode, freed, q);
  }
}

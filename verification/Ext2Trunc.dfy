/** The steps of __ext2_truncate_blocks on the tree as a value
    (io_uring/inode.c): clearing the end of one partially truncated block, then
    of the next one up, and finally the inode's remaining slots. */
module Ext2Trunc {
  import opened Ext2Path
  import opened Ext2Tree
  import opened Ext2Free

  /** Among the pointers `s0` of a node only the one on the path has changed so
      far, and it is trimmed.  `c` is the block that holds the pointers. */
  ghost predicate SlotTrimmed(ptrs: nat, d0: Disk, s0: seq<nat>, d1: Disk, s1: seq<nat>, c: nat, path: seq<nat>,
      freed: multiset<nat>) {
    && |s0| == |s1| && |path| >= 1 && path[0] < |s0|
    && (forall j :: 0 <= j < |s0| && j != path[0] ==> s1[j] == s0[j])
    && Trimmed(ptrs, d0, s0[path[0]], d1, s1[path[0]], path[1..], freed)
    && Untouched(d0, d1, Sub(d0, s0[path[0]], |path| - 1), c)
  }

  /** What is known of an indirect block on the path. */
  ghost predicate PathBlock(ptrs: nat, d0: Disk, c: nat, path: seq<nat>) {
    && |path| >= 1 && InRange(ptrs, path) && c != 0
    && Shaped(ptrs, d0, c, |path|) && Unshared(Sub(d0, c, |path|))
  }

  /** The blocks owned by the slots of `c` before, on and after the path. */
  ghost function Before(ptrs: nat, d0: Disk, c: nat, path: seq<nat>): multiset<nat>
    requires PathBlock(ptrs, d0, c, path)
  {
    Own(d0, d0[c], 0, path[0], Below(|path| - 1))
  }

  ghost function On(ptrs: nat, d0: Disk, c: nat, path: seq<nat>): multiset<nat>
    requires PathBlock(ptrs, d0, c, path)
  {
    Sub(d0, d0[c][path[0]], |path| - 1)
  }

  ghost function After(ptrs: nat, d0: Disk, c: nat, path: seq<nat>): multiset<nat>
    requires PathBlock(ptrs, d0, c, path)
  {
    Own(d0, d0[c], path[0] + 1, ptrs, Below(|path| - 1))
  }

  /** They are disjoint and make up the block's subtree. */
  lemma PathBlockParts(ptrs: nat, d0: Disk, c: nat, path: seq<nat>)
    requires PathBlock(ptrs, d0, c, path)
    ensures var l, m, r := Before(ptrs, d0, c, path), On(ptrs, d0, c, path), After(ptrs, d0, c, path);
            && Sub(d0, c, |path|) == multiset{c} + (l + m + r)
            && l !! m && l !! r && m !! r && c !in l && c !in m && c !in r && Unshared(r)
  {
    hide Own, Walk;
    OwnSlot(d0, d0[c], 0, path[0], ptrs, Below(|path| - 1));
    FourParts(Sub(d0, c, |path|), c, Before(ptrs, d0, c, path), On(ptrs, d0, c, path), After(ptrs, d0, c, path));
  }

  lemma FourParts(all: multiset<nat>, c: nat, l: multiset<nat>, m: multiset<nat>, r: multiset<nat>)
    requires Unshared(all) && all == multiset{c} + (l + m + r)
    ensures l !! m && l !! r && m !! r && c !in l && c !in m && c !in r && Unshared(r)
  {
    forall b | b in m ensures b !in l && b !in r && b != c { assert b in all; }
    forall b | b in r ensures b !in l && b != c && r[b] == 1 { assert b in all; }
    assert c in all;
  }

  lemma SameAway(d0: Disk, d1: Disk, m: multiset<nat>, c: nat, part: multiset<nat>)
    requires Untouched(d0, d1, m, c) && part !! m && c !in part
    ensures Same(d0, d1, part)
  {
  }

  /** The slots after the path are still untouched, so they can be freed. */
  lemma AfterFreeable(ptrs: nat, d0: Disk, d1: Disk, c: nat, path: seq<nat>)
    requires PathBlock(ptrs, d0, c, path) && c in d1 && |d1[c]| == ptrs
    requires Untouched(d0, d1, On(ptrs, d0, c, path), c)
    requires forall j :: path[0] < j < ptrs ==> d1[c][j] == d0[c][j]
    ensures ShapedSlots(ptrs, d1, d1[c], path[0] + 1, ptrs, Below(|path| - 1))
    ensures Own(d1, d1[c], path[0] + 1, ptrs, Below(|path| - 1)) == After(ptrs, d0, c, path)
  {
    hide Own, Sub, Walk;
    PathBlockParts(ptrs, d0, c, path);
    SameAway(d0, d1, On(ptrs, d0, c, path), c, After(ptrs, d0, c, path));
    FrameSlots(ptrs, d0, d1, d0[c], d1[c], path[0] + 1, ptrs, Below(|path| - 1));
  }

  lemma TrimmedFrame(ptrs: nat, d0: Disk, v0: nat, d1: Disk, d2: Disk, v: nat, path: seq<nat>, freed: multiset<nat>)
    requires Trimmed(ptrs, d0, v0, d1, v, path, freed)
    requires Same(d1, d2, Sub(d1, v, |path|))
    ensures Trimmed(ptrs, d0, v0, d2, v, path, freed)
  {
    hide Own, Sub, Shaped, Walk;
    Frame(ptrs, d1, d2, v, |path|);
  }

  lemma PartApart(m: multiset<nat>, part: multiset<nat>, rest: multiset<nat>, other: multiset<nat>, c: nat)
    requires m == part + rest && m !! other && c !in m
    ensures part !! other && c !in part
  {
  }

  /** Freeing the slots after the path does not disturb the trimmed slot. */
  lemma OnKept(ptrs: nat, d0: Disk, d1: Disk, v: nat, d2: Disk, c: nat, path: seq<nat>, freed: multiset<nat>)
    requires PathBlock(ptrs, d0, c, path)
    requires Trimmed(ptrs, d0, d0[c][path[0]], d1, v, path[1..], freed)
    requires Untouched(d1, d2, After(ptrs, d0, c, path), c)
    ensures Trimmed(ptrs, d0, d0[c][path[0]], d2, v, path[1..], freed)
  {
    hide Own, Sub, Walk;
    var h := |path[1..]|;
    assert h == |path| - 1;
    PathBlockParts(ptrs, d0, c, path);
    PartApart(On(ptrs, d0, c, path), Sub(d1, v, h), freed, After(ptrs, d0, c, path), c);
    SameAway(d1, d2, After(ptrs, d0, c, path), c, Sub(d1, v, h));
    TrimmedFrame(ptrs, d0, d0[c][path[0]], d1, d2, v, path[1..], freed);
  }

  lemma BeforeKept(ptrs: nat, d0: Disk, d1: Disk, d2: Disk, c: nat, path: seq<nat>)
    requires PathBlock(ptrs, d0, c, path)
    requires Untouched(d0, d1, On(ptrs, d0, c, path), c) && Untouched(d1, d2, After(ptrs, d0, c, path), c)
    ensures Same(d0, d2, Before(ptrs, d0, c, path))
    ensures Untouched(d0, d2, Sub(d0, c, |path|), c)
  {
    hide Own, Sub, Shaped, Walk;
    PathBlockParts(ptrs, d0, c, path);
    SameAway(d0, d1, On(ptrs, d0, c, path), c, Before(ptrs, d0, c, path));
    SameAway(d1, d2, After(ptrs, d0, c, path), c, Before(ptrs, d0, c, path));
  }

  /** Once the slots after the path are freed the block itself is trimmed. */
  lemma AfterFreed(ptrs: nat, d0: Disk, d1: Disk, d2: Disk, c: nat, path: seq<nat>, freed: multiset<nat>)
    requires PathBlock(ptrs, d0, c, path) && c in d1 && c in d2
    requires SlotTrimmed(ptrs, d0, d0[c], d1, d1[c], c, path, freed)
    requires Untouched(d1, d2, After(ptrs, d0, c, path), c)
    requires d2[c] == Cleared(d1[c], path[0] + 1, ptrs)
    ensures Trimmed(ptrs, d0, c, d2, c, path, freed + After(ptrs, d0, c, path))
    ensures Untouched(d0, d2, Sub(d0, c, |path|), c)
  {
    hide Own, Sub, Walk;
    OnKept(ptrs, d0, d1, d1[c][path[0]], d2, c, path, freed);
    BeforeKept(ptrs, d0, d1, d2, c, path);
    assert ClearedAfter(ptrs, d0, d0[c], d2, d2[c], path[0], Below(|path| - 1));
    TrimNode(ptrs, d0, d2, c, path, freed);
  }

  /** The case in which the source moves its pointer one slot to the left: the
      path ends in zeros, so the slot on the path goes with those after it. */
  lemma ShiftedFreed(ptrs: nat, d0: Disk, d2: Disk, c: nat, path: seq<nat>)
    requires PathBlock(ptrs, d0, c, path) && c in d2
    requires forall i :: 1 <= i < |path| ==> path[i] == 0
    requires Untouched(d0, d2, Own(d0, d0[c], path[0], ptrs, Below(|path| - 1)), c)
    requires d2[c] == Cleared(d0[c], path[0], ptrs)
    ensures Trimmed(ptrs, d0, c, d2, c, path, Own(d0, d0[c], path[0], ptrs, Below(|path| - 1)))
    ensures Untouched(d0, d2, Sub(d0, c, |path|), c)
  {
    hide Own, Sub, Walk, Trimmed, Unshared;
    var o, lv := path[0], Below(|path| - 1);
    ShiftedParts(ptrs, d0, c, path);
    ShiftedKept(ptrs, d0, d2, c, path);
    BarrenZeros(ptrs, d0, d0[c][o], path[1..]);
    TrimAll(ptrs, d0, d0[c][o], d2, path[1..]);
    TrimNode(ptrs, d0, d2, c, path, On(ptrs, d0, c, path));
  }

  lemma ShiftedParts(ptrs: nat, d0: Disk, c: nat, path: seq<nat>)
    requires PathBlock(ptrs, d0, c, path)
    ensures Own(d0, d0[c], path[0], ptrs, Below(|path| - 1)) == On(ptrs, d0, c, path) + After(ptrs, d0, c, path)
  {
    hide Own, Sub, Walk;
    var o, lv := path[0], Below(|path| - 1);
    OwnSlot(d0, d0[c], o, o, ptrs, lv);
    OwnNone(d0, d0[c], o, lv);
  }

  /** What lies before the path is left alone, and so is everything outside the block's subtree. */
  lemma ShiftedKept(ptrs: nat, d0: Disk, d2: Disk, c: nat, path: seq<nat>)
    requires PathBlock(ptrs, d0, c, path) && c in d2 && d2[c] == Cleared(d0[c], path[0], ptrs)
    requires Untouched(d0, d2, Own(d0, d0[c], path[0], ptrs, Below(|path| - 1)), c)
    ensures ClearedAfter(ptrs, d0, d0[c], d2, d2[c], path[0], Below(|path| - 1))
    ensures Untouched(d0, d2, Sub(d0, c, |path|), c)
  {
    hide Own, Sub, Walk, Unshared;
    PathBlockParts(ptrs, d0, c, path);
    ShiftedParts(ptrs, d0, c, path);
    SameAway(d0, d2, On(ptrs, d0, c, path) + After(ptrs, d0, c, path), c, Before(ptrs, d0, c, path));
  }

  // ----- the chain of pointers along a path -----

  /** `keys` are the pointers met along `path`, as ext2_get_branch collects them:
      all but the last one are set. */
  ghost predicate IsChain(d: Disk, root: seq<nat>, path: seq<nat>, keys: seq<nat>) {
    && 0 < |keys| <= |path| && path[0] < |root| && keys[0] == root[path[0]]
    && forall i :: 0 <= i < |keys| - 1 ==>
         keys[i] != 0 && keys[i] in d && path[i + 1] < |d[keys[i]]| && keys[i + 1] == d[keys[i]][path[i + 1]]
  }

  lemma Tail(ptrs: nat, path: seq<nat>, i: nat) returns (tail: seq<nat>)
    requires 1 <= i < |path| && InRange(ptrs, path[1..])
    ensures tail == path[i..] && |tail| == |path| - i && InRange(ptrs, tail) && tail[0] == path[i]
  {
    tail := path[i..];
    forall j | 0 <= j < |tail| ensures tail[j] < ptrs {
      assert tail[j] == path[1..][i + j - 1];
    }
  }

  /** `nr` is the root of a well-formed unshared part of the tree, `h` high. */
  ghost predicate Part(ptrs: nat, d: Disk, root: seq<nat>, nr: nat, h: nat) {
    && Shaped(ptrs, d, nr, h) && Unshared(Sub(d, nr, h))
    && Elements(Sub(d, nr, h)) <= Elements(OwnAll(d, root, Inode))
  }

  lemma RootPart(ptrs: nat, d: Disk, root: seq<nat>, o: nat)
    requires Tree(ptrs, d, root) && o < |root|
    ensures Part(ptrs, d, root, root[o], Height(o))
  {
    OwnSlot(d, root, 0, o, |root|, Inode);
    UnsharedParts(OwnAll(d, root, Inode), Own(d, root, 0, o, Inode), Sub(d, root[o], Height(o)),
        Own(d, root, o + 1, |root|, Inode));
  }

  /** Every pointer of a chain leads to such a part. */
  lemma {:induction false} ChainParts(ptrs: nat, d: Disk, root: seq<nat>, path: seq<nat>, keys: seq<nat>, i: nat)
    requires Tree(ptrs, d, root) && ValidPath(ptrs, path) && IsChain(d, root, path, keys) && i < |keys|
    ensures Part(ptrs, d, root, keys[i], |path| - 1 - i)
    decreases i
  {
    hide Own, Sub, Shaped, Walk;
    if i == 0 {
      RootPart(ptrs, d, root, path[0]);
    } else {
      var tail := Tail(ptrs, path, i);
      ChainParts(ptrs, d, root, path, keys, i - 1);
      PartDown(ptrs, d, root, keys[i - 1], tail);
    }
  }

  lemma PartDown(ptrs: nat, d: Disk, root: seq<nat>, c: nat, path: seq<nat>)
    requires |path| >= 1 && InRange(ptrs, path) && c != 0 && Part(ptrs, d, root, c, |path|)
    ensures path[0] < |d[c]| && Part(ptrs, d, root, d[c][path[0]], |path| - 1)
  {
    hide Own, Sub, Walk;
    PathBlockParts(ptrs, d, c, path);
    var l, m, r := Before(ptrs, d, c, path), On(ptrs, d, c, path), After(ptrs, d, c, path);
    UnsharedParts(Sub(d, c, |path|), multiset{c} + l, m, r);
  }

  /** An indirect block of a chain. */
  lemma ChainBlock(ptrs: nat, d: Disk, root: seq<nat>, path: seq<nat>, keys: seq<nat>, i: nat)
    requires Tree(ptrs, d, root) && ValidPath(ptrs, path) && IsChain(d, root, path, keys)
    requires i < |keys| && keys[i] != 0 && i + 1 < |path|
    ensures PathBlock(ptrs, d, keys[i], path[i + 1..])
  {
    hide Own, Sub, Shaped, Walk;
    var tail := Tail(ptrs, path, i + 1);
    ChainParts(ptrs, d, root, path, keys, i);
  }

  /** The next block up is the one whose slot on the path has been trimmed. */
  lemma SlotTrimmedUp(ptrs: nat, d0: Disk, s0: seq<nat>, d1: Disk, s1: seq<nat>, parent: nat, path: seq<nat>,
      freed: multiset<nat>)
    requires |path| >= 2 && path[0] < |s0| && s1 == s0
    requires Trimmed(ptrs, d0, s0[path[0]], d1, s0[path[0]], path[1..], freed)
    requires Untouched(d0, d1, Sub(d0, s0[path[0]], |path| - 1), s0[path[0]])
    requires s0[path[0]] in Sub(d0, s0[path[0]], |path| - 1)
    ensures SlotTrimmed(ptrs, d0, s0, d1, s1, parent, path, freed)
  {
    hide Own, Sub, Shaped, Walk, Trimmed;
  }

  /** Detaching a pointer with no data before the path and freeing its branch
      trims the slot. */
  lemma Detached(ptrs: nat, d0: Disk, s0: seq<nat>, d1: Disk, s1: seq<nat>, c: nat, path: seq<nat>)
    requires |path| >= 1 && path[0] < |s0| && s1 == s0[path[0] := 0]
    requires Barren(ptrs, d0, s0[path[0]], path[1..])
    requires Untouched(d0, d1, Sub(d0, s0[path[0]], |path| - 1), c)
    ensures SlotTrimmed(ptrs, d0, s0, d1, s1, c, path, Sub(d0, s0[path[0]], |path| - 1))
  {
    hide Own, Sub, Shaped, Walk;
    TrimAll(ptrs, d0, s0[path[0]], d1, path[1..]);
    assert |path[1..]| == |path| - 1;
  }

  lemma NextKey(ptrs: nat, d: Disk, root: seq<nat>, path: seq<nat>, keys: seq<nat>)
    requires Tree(ptrs, d, root) && ValidPath(ptrs, path) && IsChain(d, root, path, keys)
    requires keys[|keys| - 1] != 0 && |keys| < |path|
    ensures var key := keys[|keys| - 1];
            && key in d && path[|keys|] < |d[key]|
            && IsChain(d, root, path, keys + [d[key][path[|keys|]]])
  {
    hide Own, Sub, Walk;
    var tail := Tail(ptrs, path, |keys|);
    ChainBlock(ptrs, d, root, path, keys, |keys| - 1);
  }

  ghost predicate EmptyBefore(s: seq<nat>, end: nat) {
    forall j :: 0 <= j < end && j < |s| ==> s[j] == 0
  }

  /** The pointer at level `i > 0` of a chain lies in an indirect block. */
  lemma ChainSlot(ptrs: nat, d: Disk, root: seq<nat>, path: seq<nat>, keys: seq<nat>, i: nat)
    requires Tree(ptrs, d, root) && ValidPath(ptrs, path) && IsChain(d, root, path, keys) && i < |keys|
    ensures i > 0 ==> && PathBlock(ptrs, d, keys[i - 1], path[i..])
                      && |d[keys[i - 1]]| == ptrs && path[i] < ptrs && keys[i] == d[keys[i - 1]][path[i]]
  {
    hide Own, Sub, Walk;
    if i > 0 {
      var tail := Tail(ptrs, path, i);
      ChainBlock(ptrs, d, root, path, keys, i - 1);
    }
  }

  /** One level up the chain: a block with no pointer before the path is barren
      when the slot on the path is. */
  lemma BarrenParent(ptrs: nat, d: Disk, root: seq<nat>, path: seq<nat>, keys: seq<nat>, i: nat)
    requires Tree(ptrs, d, root) && ValidPath(ptrs, path) && IsChain(d, root, path, keys) && 0 < i < |keys|
    requires Barren(ptrs, d, keys[i], path[i + 1..])
    requires keys[i - 1] in d && EmptyBefore(d[keys[i - 1]], path[i])
    ensures Barren(ptrs, d, keys[i - 1], path[i..])
  {
    hide Own, Sub, Shaped, Walk;
    ChainSlot(ptrs, d, root, path, keys, i);
    var tail := path[i..];
    assert tail[0] == path[i] && tail[1..] == path[i + 1..];
    BarrenUp(ptrs, d, keys[i - 1], tail);
  }

  /** The pointers of the node at level `i` of a chain. */
  function SlotsAt(i: nat, keys: seq<nat>, d: Disk, root: seq<nat>): seq<nat> {
    if i == 0 then root
    else if i <= |keys| && keys[i - 1] in d then d[keys[i - 1]]
    else []
  }

  /** The block at level `i` of a chain, zero for the inode. */
  function BlockAt(i: nat, keys: seq<nat>): nat
    requires i <= |keys|
  {
    if i == 0 then 0 else keys[i - 1]
  }

  /** From `d0`, `root0` to `d`, `root` only slot `o` of the node at level `i` has
      changed: it has been cleared. */
  ghost predicate Punched(i: nat, keys: seq<nat>, d0: Disk, root0: seq<nat>, d: Disk, root: seq<nat>, o: nat) {
    var s0 := SlotsAt(i, keys, d0, root0);
    && o < |s0|
    && if i == 0 then d == d0 && root == s0[o := 0]
       else i <= |keys| && d == d0[keys[i - 1] := s0[o := 0]] && root == root0
  }

  /** The pointer at level `i` of a chain: its branch is a part of the tree, and the
      node that holds it is not. */
  ghost predicate Spot(ptrs: nat, d: Disk, root: seq<nat>, path: seq<nat>, keys: seq<nat>, i: nat) {
    && i < |keys| && i < |path|
    && path[i] < |SlotsAt(i, keys, d, root)| && SlotsAt(i, keys, d, root)[path[i]] == keys[i]
    && Part(ptrs, d, root, keys[i], |path| - 1 - i)
    && BlockAt(i, keys) !in Sub(d, keys[i], |path| - 1 - i)
    && (i > 0 ==> keys[i - 1] != 0)
  }

  lemma SlotApart(ptrs: nat, d: Disk, c: nat, path: seq<nat>)
    requires PathBlock(ptrs, d, c, path)
    ensures c !in Sub(d, d[c][path[0]], |path| - 1)
  {
    PathBlockParts(ptrs, d, c, path);
  }

  lemma ChainSpot(ptrs: nat, d: Disk, root: seq<nat>, path: seq<nat>, keys: seq<nat>, i: nat)
    requires Tree(ptrs, d, root) && ValidPath(ptrs, path) && IsChain(d, root, path, keys) && i < |keys|
    ensures Spot(ptrs, d, root, path, keys, i)
  {
    hide Own, Sub, Shaped, Walk;
    ChainParts(ptrs, d, root, path, keys, i);
    ChainSlot(ptrs, d, root, path, keys, i);
    if i == 0 {
      SubPositive(d, keys[i], |path| - 1);
    } else {
      BlockSpot(ptrs, d, root, path, keys, i);
    }
  }

  lemma BlockSpot(ptrs: nat, d: Disk, root: seq<nat>, path: seq<nat>, keys: seq<nat>, i: nat)
    requires 0 < i < |keys| && i < |path| && Part(ptrs, d, root, keys[i], |path| - 1 - i)
    requires PathBlock(ptrs, d, keys[i - 1], path[i..])
    requires path[i] < |d[keys[i - 1]]| && keys[i] == d[keys[i - 1]][path[i]]
    ensures Spot(ptrs, d, root, path, keys, i)
  {
    hide Own, Sub, Walk;
    var tail := path[i..];
    assert tail[0] == path[i] && |tail| - 1 == |path| - 1 - i;
    SlotApart(ptrs, d, keys[i - 1], tail);
  }

  /** The detached branch is still whole. */
  lemma TopReady(ptrs: nat, d0: Disk, root0: seq<nat>, d: Disk, root: seq<nat>, path: seq<nat>, keys: seq<nat>, i: nat,
      use: set<nat>)
    requires Spot(ptrs, d0, root0, path, keys, i) && Punched(i, keys, d0, root0, d, root, path[i])
    requires Elements(OwnAll(d0, root0, Inode)) <= use
    ensures var h := |path| - 1 - i;
            && Shaped(ptrs, d, keys[i], h) && Sub(d, keys[i], h) == Sub(d0, keys[i], h)
            && Unshared(Sub(d, keys[i], h)) && Elements(Sub(d, keys[i], h)) <= use
  {
    hide Own, Sub, Shaped, Walk;
    Frame(ptrs, d0, d, keys[i], |path| - 1 - i);
  }

  /** Freeing the detached branch leaves its slot trimmed. */
  lemma TopKilled(ptrs: nat, d0: Disk, root0: seq<nat>, d1: Disk, d2: Disk, root: seq<nat>, path: seq<nat>,
      keys: seq<nat>, i: nat)
    requires Spot(ptrs, d0, root0, path, keys, i) && Punched(i, keys, d0, root0, d1, root, path[i])
    requires Barren(ptrs, d0, keys[i], path[i + 1..])
    requires if keys[i] == 0 then d2 == d1 else Untouched(d1, d2, Sub(d0, keys[i], |path| - 1 - i), keys[i])
    ensures SlotTrimmed(ptrs, d0, SlotsAt(i, keys, d0, root0), d2, SlotsAt(i, keys, d2, root),
                        BlockAt(i, keys), path[i..], Sub(d0, keys[i], |path| - 1 - i))
  {
    hide Own, Sub, Shaped, Walk;
    var tail, c := path[i..], BlockAt(i, keys);
    assert tail[0] == path[i] && tail[1..] == path[i + 1..] && |tail| - 1 == |path| - 1 - i;
    if keys[i] != 0 {
      SubRoot(d0, keys[i], |path| - 1 - i);
    }
    Detached(ptrs, d0, SlotsAt(i, keys, d0, root0), d2, SlotsAt(i, keys, d2, root), c, tail);
  }

  /** What is left of a part of the tree, after some of it was freed, is still in
      use where the rest of the tree was. */
  lemma AfterInUse(ptrs: nat, d0: Disk, c: nat, path: seq<nat>, on: multiset<nat>, freed: multiset<nat>, use0: set<nat>,
      use: set<nat>)
    requires PathBlock(ptrs, d0, c, path) && On(ptrs, d0, c, path) == on + freed
    requires Elements(Sub(d0, c, |path|)) <= use0 && use == use0 - Elements(freed)
    ensures Elements(After(ptrs, d0, c, path)) <= use
  {
    hide Own, Sub, Shaped, Walk;
    PathBlockParts(ptrs, d0, c, path);
    forall b | b in After(ptrs, d0, c, path) ensures b in use {
      assert b in Elements(Sub(d0, c, |path|));
      assert b !in On(ptrs, d0, c, path);
    }
  }

  /** The slots after the path can be freed. */
  lemma EndReady(ptrs: nat, d0: Disk, d1: Disk, c: nat, path: seq<nat>, freed: multiset<nat>, use0: set<nat>,
      use: set<nat>)
    requires PathBlock(ptrs, d0, c, path) && c in d1
    requires SlotTrimmed(ptrs, d0, d0[c], d1, d1[c], c, path, freed)
    requires Elements(Sub(d0, c, |path|)) <= use0 && use == use0 - Elements(freed)
    ensures var m := Own(d1, d1[c], path[0] + 1, ptrs, Below(|path| - 1));
            && m == After(ptrs, d0, c, path)
            && ShapedSlots(ptrs, d1, d1[c], path[0] + 1, ptrs, Below(|path| - 1))
            && Unshared(m) && c !in m && Elements(m) <= use
  {
    hide Own, Sub, Walk;
    assert |path[1..]| == |path| - 1;
    AfterFreeable(ptrs, d0, d1, c, path);
    PathBlockParts(ptrs, d0, c, path);
    AfterInUse(ptrs, d0, c, path, Sub(d1, d1[c][path[0]], |path| - 1), freed, use0, use);
  }

  /** The slot on the path and those after it can be freed in one go. */
  lemma ShiftedFreeable(ptrs: nat, d0: Disk, c: nat, path: seq<nat>, use0: set<nat>)
    requires PathBlock(ptrs, d0, c, path) && Elements(Sub(d0, c, |path|)) <= use0
    ensures var m := Own(d0, d0[c], path[0], ptrs, Below(|path| - 1));
            && ShapedSlots(ptrs, d0, d0[c], path[0], ptrs, Below(|path| - 1))
            && Unshared(m) && c !in m && Elements(m) <= use0
  {
    hide Own, Walk;
    var l, m := Before(ptrs, d0, c, path), Own(d0, d0[c], path[0], ptrs, Below(|path| - 1));
    OwnSplit(d0, d0[c], 0, path[0], ptrs, Below(|path| - 1));
    assert Sub(d0, c, |path|) == (multiset{c} + l) + m;
    UnsharedParts(Sub(d0, c, |path|), multiset{c} + l, m, multiset{});
    assert c !in m && Elements(m) <= use0 by {
      assert c in multiset{c} + l;
      forall b | b in m ensures b in use0 {
        assert b in Elements(Sub(d0, c, |path|));
      }
    }
  }

  /** From a trimmed block at level `i` to its trimmed slot in the node above. */
  lemma LevelUp(ptrs: nat, d0: Disk, root0: seq<nat>, d: Disk, path: seq<nat>, keys: seq<nat>, i: nat,
      freed: multiset<nat>)
    requires 0 < i < |path| && Spot(ptrs, d0, root0, path, keys, i - 1) && keys[i - 1] != 0
    requires Trimmed(ptrs, d0, keys[i - 1], d, keys[i - 1], path[i..], freed)
    requires Untouched(d0, d, Sub(d0, keys[i - 1], |path[i..]|), keys[i - 1])
    ensures SlotTrimmed(ptrs, d0, SlotsAt(i - 1, keys, d0, root0), d, SlotsAt(i - 1, keys, d, root0),
                        BlockAt(i - 1, keys), path[i - 1..], freed)
  {
    hide Own, Sub, Shaped, Walk, Trimmed, Part, SlotTrimmed;
    var tail := path[i - 1..];
    assert tail[0] == path[i - 1] && tail[1..] == path[i..] && |tail| - 1 == |path[i..]| == |path| - i;
    SubRoot(d0, keys[i - 1], |path| - i);
    assert SlotsAt(i - 1, keys, d, root0) == SlotsAt(i - 1, keys, d0, root0);
    SlotTrimmedUp(ptrs, d0, SlotsAt(i - 1, keys, d0, root0), d, SlotsAt(i - 1, keys, d, root0), BlockAt(i - 1, keys),
        tail, freed);
  }

  /** What a round of the clearing loop needs to know of the block at level `i`. */
  ghost predicate LevelReady(ptrs: nat, d0: Disk, root0: seq<nat>, path: seq<nat>, keys: seq<nat>, i: nat,
      use0: set<nat>) {
    && 0 < i < |path| && Spot(ptrs, d0, root0, path, keys, i - 1)
    && PathBlock(ptrs, d0, keys[i - 1], path[i..])
    && Elements(Sub(d0, keys[i - 1], |path[i..]|)) <= use0
  }

  lemma ChainReady(ptrs: nat, d0: Disk, root0: seq<nat>, path: seq<nat>, keys: seq<nat>, i: nat, use0: set<nat>)
    requires Tree(ptrs, d0, root0) && ValidPath(ptrs, path) && IsChain(d0, root0, path, keys) && 0 < i < |keys|
    requires Elements(OwnAll(d0, root0, Inode)) <= use0
    ensures LevelReady(ptrs, d0, root0, path, keys, i, use0)
  {
    hide Own, Sub, Walk;
    ChainSlot(ptrs, d0, root0, path, keys, i);
    ChainSpot(ptrs, d0, root0, path, keys, i - 1);
    assert |path[i..]| == |path| - 1 - (i - 1);
  }

  // ----- the inode's remaining slots -----

  /** The inode's slots after the path are cleared up to `j`. */
  ghost predicate RootTrimmed(ptrs: nat, d0: Disk, root0: seq<nat>, d: Disk, root: seq<nat>, path: seq<nat>, j: nat,
      freed: multiset<nat>) {
    && |root0| == |root| && |path| >= 1 && path[0] < j <= |root0|
    && (forall i :: 0 <= i < path[0] ==> root[i] == root0[i])
    && (forall i :: path[0] < i < j ==> root[i] == 0)
    && (forall i :: j <= i < |root0| ==> root[i] == root0[i])
    && Trimmed(ptrs, d0, root0[path[0]], d, root[path[0]], path[1..], freed)
    && Untouched(d0, d, Own(d0, root0, path[0], j, Inode), 0)
  }

  /** What a truncation along a path in inode slot `o` has freed when the slots up
      to `j` are done: `freed` in slot `o` and all blocks of the slots after it. */
  ghost function Gone(d0: Disk, root0: seq<nat>, o: nat, j: nat, freed: multiset<nat>): multiset<nat>
    requires o < j <= |root0|
  {
    freed + Own(d0, root0, o + 1, j, Inode)
  }

  lemma RootStart(ptrs: nat, d0: Disk, root0: seq<nat>, d: Disk, root: seq<nat>, path: seq<nat>, freed: multiset<nat>)
    requires SlotTrimmed(ptrs, d0, root0, d, root, 0, path, freed) && |path| - 1 == Height(path[0])
    ensures RootTrimmed(ptrs, d0, root0, d, root, path, path[0] + 1, freed)
    ensures Gone(d0, root0, path[0], path[0] + 1, freed) == freed
  {
    hide Sub, Shaped, Walk;
    OwnSlot(d0, root0, path[0], path[0], path[0] + 1, Inode);
  }

  /** The blocks of the slots from `o` on are unshared, nonzero and apart from those
      of the slots before. */
  lemma RootTail(ptrs: nat, d0: Disk, root0: seq<nat>, o: nat)
    requires Tree(ptrs, d0, root0) && o <= |root0|
    ensures Unshared(Own(d0, root0, o, |root0|, Inode)) && 0 !in Own(d0, root0, o, |root0|, Inode)
    ensures Own(d0, root0, 0, o, Inode) !! Own(d0, root0, o, |root0|, Inode)
    ensures Elements(Own(d0, root0, o, |root0|, Inode)) <= Elements(OwnAll(d0, root0, Inode))
  {
    hide Own, Sub, Shaped, Walk;
    OwnSplit(d0, root0, 0, o, |root0|, Inode);
    OwnPositive(d0, root0, o, |root0|, Inode);
    UnsharedParts(OwnAll(d0, root0, Inode), Own(d0, root0, 0, o, Inode), Own(d0, root0, o, |root0|, Inode), multiset{});
  }

  /** The branch in slot `j` is still whole and in use. */
  lemma RootReady(ptrs: nat, d0: Disk, root0: seq<nat>, d: Disk, root: seq<nat>, path: seq<nat>, j: nat,
      freed: multiset<nat>,
                  use0: set<nat>, use: set<nat>)
    requires Tree(ptrs, d0, root0) && RootTrimmed(ptrs, d0, root0, d, root, path, j, freed) && j < |root0|
    requires |path| - 1 == Height(path[0]) && Elements(OwnAll(d0, root0, Inode)) <= use0
    requires use == use0 - Elements(Gone(d0, root0, path[0], j, freed))
    ensures var sub := Sub(d0, root0[j], Height(j));
            && Shaped(ptrs, d, root[j], Height(j)) && Sub(d, root[j], Height(j)) == sub
            && Unshared(sub) && Elements(sub) <= use && sub !! Own(d0, root0, path[0], j, Inode)
  {
    hide Own, Sub, Shaped, Walk;
    var o, all := path[0], Own(d0, root0, path[0], |root0|, Inode);
    var left, sub := Own(d0, root0, o, j, Inode), Sub(d0, root0[j], Height(j));
    RootTail(ptrs, d0, root0, o);
    NextSlot(ptrs, d0, d, 0, root0, o, j, |root0|, Inode);
    assert Gone(d0, root0, o, j, freed) <= left by {
      RootFreed(ptrs, d0, root0, d, root, path, j, freed);
    }
    forall b | b in sub ensures b in use {
      assert b in Elements(all);
    }
  }

  lemma RootFreed(ptrs: nat, d0: Disk, root0: seq<nat>, d: Disk, root: seq<nat>, path: seq<nat>, j: nat,
      freed: multiset<nat>)
    requires RootTrimmed(ptrs, d0, root0, d, root, path, j, freed) && |path| - 1 == Height(path[0])
    ensures Own(d0, root0, path[0], j, Inode)
            == Sub(d, root[path[0]], Height(path[0])) + Gone(d0, root0, path[0], j, freed)
  {
    hide Own, Sub, Shaped, Walk;
    var o := path[0];
    var on0, on, rest := Sub(d0, root0[o], Height(o)), Sub(d, root[o], Height(o)), Own(d0, root0, o + 1, j, Inode);
    assert |path[1..]| == Height(o);
    OwnSlot(d0, root0, o, o, j, Inode);
    OwnNone(d0, root0, o, Inode);
    Regroup(multiset{}, on0, rest, on, freed);
  }

  /** Freeing the branch in slot `j` keeps the slot on the path as it is. */
  lemma RootOnKept(ptrs: nat, d0: Disk, root0: seq<nat>, d: Disk, root: seq<nat>, d': Disk, path: seq<nat>, j: nat,
      freed: multiset<nat>,
                   sub: multiset<nat>, nr: nat)
    requires RootTrimmed(ptrs, d0, root0, d, root, path, j, freed) && |path| - 1 == Height(path[0])
    requires sub !! Own(d0, root0, path[0], j, Inode) && Untouched(d, d', sub, nr) && nr in sub
    ensures Trimmed(ptrs, d0, root0[path[0]], d', root[path[0]], path[1..], freed)
  {
    hide Own, Sub, Shaped, Walk;
    var o := path[0];
    RootFreed(ptrs, d0, root0, d, root, path, j, freed);
    assert |path[1..]| == Height(o);
    PartApart(Own(d0, root0, o, j, Inode), Sub(d, root[o], Height(o)), Gone(d0, root0, o, j, freed), sub, nr);
    SameAway(d, d', sub, nr, Sub(d, root[o], Height(o)));
    TrimmedFrame(ptrs, d0, root0[o], d, d', root[o], path[1..], freed);
  }

  /** Freeing that branch clears slot `j` and keeps everything else. */
  lemma RootStep(ptrs: nat, d0: Disk, root0: seq<nat>, d: Disk, root: seq<nat>, d': Disk, path: seq<nat>, j: nat,
      freed: multiset<nat>)
    requires RootTrimmed(ptrs, d0, root0, d, root, path, j, freed) && j < |root0| && |path| - 1 == Height(path[0])
    requires Sub(d0, root0[j], Height(j)) !! Own(d0, root0, path[0], j, Inode)
    requires root0[j] != 0 && Untouched(d, d', Sub(d0, root0[j], Height(j)), root0[j])
    ensures RootTrimmed(ptrs, d0, root0, d', root[j := 0], path, j + 1, freed)
  {
    hide Own, Sub, Shaped, Walk, Trimmed;
    var sub := Sub(d0, root0[j], Height(j));
    SubRoot(d0, root0[j], Height(j));
    RootOnKept(ptrs, d0, root0, d, root, d', path, j, freed, sub, root0[j]);
    UntouchedTwice(d0, d, d', Own(d0, root0, path[0], j, Inode), 0, sub, root0[j]);
    OwnLast(d0, root0, path[0], j + 1, Inode);
  }

  lemma RootSkip(ptrs: nat, d0: Disk, root0: seq<nat>, d: Disk, root: seq<nat>, path: seq<nat>, j: nat,
      freed: multiset<nat>)
    requires RootTrimmed(ptrs, d0, root0, d, root, path, j, freed) && j < |root0| && root0[j] == 0
    ensures RootTrimmed(ptrs, d0, root0, d, root, path, j + 1, freed)
  {
    hide Shaped, Walk;
    assert Own(d0, root0, path[0], j + 1, Inode) == Own(d0, root0, path[0], j, Inode);
  }

  /** When all slots are done the tree is cut along the path. */
  lemma RootCleared(ptrs: nat, d0: Disk, root0: seq<nat>, d: Disk, root: seq<nat>, path: seq<nat>, freed: multiset<nat>)
    requires Tree(ptrs, d0, root0) && RootTrimmed(ptrs, d0, root0, d, root, path, |root0|, freed)
    ensures ClearedAfter(ptrs, d0, root0, d, root, path[0], Inode)
  {
    hide Own, Sub, Shaped, Walk;
    RootTail(ptrs, d0, root0, path[0]);
    OwnPositive(d0, root0, 0, path[0], Inode);
    SameAway(d0, d, Own(d0, root0, path[0], |root0|, Inode), 0, Own(d0, root0, 0, path[0], Inode));
  }

  lemma RootDone(ptrs: nat, d0: Disk, root0: seq<nat>, d: Disk, root: seq<nat>, path: seq<nat>, freed: multiset<nat>)
    requires |root0| == |root| == NSLOTS && Unshared(OwnAll(d0, root0, Inode))
    requires |path| >= 1 && path[0] < NSLOTS && |path| - 1 == Height(path[0])
    requires ClearedAfter(ptrs, d0, root0, d, root, path[0], Inode)
    requires Trimmed(ptrs, d0, root0[path[0]], d, root[path[0]], path[1..], freed)
    ensures OwnAll(d0, root0, Inode) == OwnAll(d, root, Inode) + Gone(d0, root0, path[0], |root0|, freed)
    ensures Tree(ptrs, d, root)
  {
    hide Own, Sub, Shaped, Walk;
    assert |path[1..]| == Height(path[0]);
    TrimBlocks(ptrs, d0, root0, d, root, path[0], Inode, freed);
    TrimShape(ptrs, d0, root0, d, root, path[0], Inode);
    UnsharedPart(OwnAll(d0, root0, Inode), OwnAll(d, root, Inode), Gone(d0, root0, path[0], |root0|, freed));
  }

  /** A path that is a direct slot: the direct slots from it up to `n` are cleared. */
  lemma DirectDone(ptrs: nat, d: Disk, root0: seq<nat>, o: nat, n: nat)
    requires o < n <= NDIR && n <= |root0|
    ensures RootTrimmed(ptrs, d, root0, d, Cleared(root0, o, n), [o], n, Sub(d, root0[o], SlotHeight(Inode, o)))
    ensures Gone(d, root0, o, n, Sub(d, root0[o], SlotHeight(Inode, o))) == multiset(NonZero(root0, o, n))
  {
    hide Own, Sub, Shaped, Walk, NonZero, Trimmed, Barren;
    var none: seq<nat> := [o][1..];
    BarrenZeros(ptrs, d, root0[o], none);
    TrimAll(ptrs, d, root0[o], d, none);
    OwnData(d, root0, o, n, Inode);
    OwnNone(d, root0, o, Inode);
    OwnSlot(d, root0, o, o, n, Inode);
  }

  lemma DirectFreeable(ptrs: nat, d: Disk, root: seq<nat>, o: nat, n: nat)
    requires Tree(ptrs, d, root) && o < n <= NDIR
    ensures Unshared(multiset(NonZero(root, o, n)))
    ensures forall b :: b in NonZero(root, o, n) ==> b in OwnAll(d, root, Inode)
  {
    hide Own, Sub, Shaped, Walk;
    OwnData(d, root, o, n, Inode);
    OwnSplit(d, root, 0, o, |root|, Inode);
    OwnSplit(d, root, o, n, |root|, Inode);
    UnsharedParts(OwnAll(d, root, Inode), Own(d, root, 0, o, Inode), Own(d, root, o, n, Inode),
        Own(d, root, n, |root|, Inode));
    forall b | b in NonZero(root, o, n) ensures b in OwnAll(d, root, Inode) {
      assert b in multiset(NonZero(root, o, n));
    }
  }

  lemma DirectFreed(ptrs: nat, d: Disk, root0: seq<nat>, root: seq<nat>, o: nat, n: nat,
                    calls0: seq<Call>, use0: set<nat>, calls: seq<Call>, use: set<nat>)
    requires o < n <= NDIR && n <= |root0| && root == Cleared(root0, o, n)
    requires calls == calls0 + DataCalls(root0, o, n) && use == use0 - set b | b in NonZero(root0, o, n)
    ensures RootTrimmed(ptrs, d, root0, d, root, [o], n, Sub(d, root0[o], SlotHeight(Inode, o)))
    ensures Freed(calls0, use0, calls, use, Gone(d, root0, [o][0], n, Sub(d, root0[o], SlotHeight(Inode, o))))
  {
    hide Own, Sub, Shaped, Walk;
    DirectDone(ptrs, d, root0, o, n);
    DataFreed(calls0, use0, calls, use, root0, o, n);
  }

  lemma RootKilled(ptrs: nat, d0: Disk, root0: seq<nat>, d: Disk, root: seq<nat>, d': Disk, path: seq<nat>, j: nat,
      freed: multiset<nat>,
                   calls0: seq<Call>, use0: set<nat>, calls: seq<Call>, use: set<nat>, calls': seq<Call>,
                       use': set<nat>)
    requires RootTrimmed(ptrs, d0, root0, d, root, path, j, freed) && j < |root0| && |path| - 1 == Height(path[0])
    requires Freed(calls0, use0, calls, use, Gone(d0, root0, path[0], j, freed))
    requires var sub := Sub(d0, root0[j], Height(j));
             && sub !! Own(d0, root0, path[0], j, Inode) && root0[j] != 0
             && Untouched(d, d', sub, root0[j]) && Freed(calls, use, calls', use', sub)
    ensures RootTrimmed(ptrs, d0, root0, d', root[j := 0], path, j + 1, freed)
    ensures Freed(calls0, use0, calls', use', Gone(d0, root0, path[0], j + 1, freed))
  {
    hide Sub, Shaped, Walk;
    var left, sub := Gone(d0, root0, path[0], j, freed), Sub(d0, root0[j], Height(j));
    FreedTwice(calls0, use0, calls, use, calls', use', left, sub);
    assert left + sub == Gone(d0, root0, path[0], j + 1, freed);
    RootStep(ptrs, d0, root0, d, root, d', path, j, freed);
  }

  lemma RootSkipped(ptrs: nat, d0: Disk, root0: seq<nat>, d: Disk, root: seq<nat>, path: seq<nat>, j: nat,
      freed: multiset<nat>,
                    calls0: seq<Call>, use0: set<nat>, calls: seq<Call>, use: set<nat>)
    requires RootTrimmed(ptrs, d0, root0, d, root, path, j, freed) && j < |root0| && root0[j] == 0
    requires Freed(calls0, use0, calls, use, Gone(d0, root0, path[0], j, freed))
    ensures RootTrimmed(ptrs, d0, root0, d, root, path, j + 1, freed)
    ensures Freed(calls0, use0, calls, use, Gone(d0, root0, path[0], j + 1, freed))
  {
    hide Shaped, Walk;
    RootSkip(ptrs, d0, root0, d, root, path, j, freed);
    assert Own(d0, root0, path[0] + 1, j + 1, Inode) == Own(d0, root0, path[0] + 1, j, Inode);
  }

  /** The mappings below `cut` are kept, the others are gone. */
  ghost predicate CutAt(ptrs: nat, d0: Disk, root0: seq<nat>, d: Disk, root: seq<nat>, cut: nat)
    requires ptrs >= NDIR && |root0| == |root| == NSLOTS
  {
    forall b :: 0 <= b < Limit(ptrs) ==>
      Mapping(ptrs, d, root, b) == if b < cut then Mapping(ptrs, d0, root0, b) else 0
  }

  /** The calls made since freed exactly the blocks that have left the tree, each
      of them once. */
  ghost predicate FreedBetween(d0: Disk, root0: seq<nat>, calls0: seq<Call>, use0: set<nat>,
                               d: Disk, root: seq<nat>, calls: seq<Call>, use: set<nat>) {
    var all, kept := OwnAll(d0, root0, Inode), OwnAll(d, root, Inode);
    kept <= all && Freed(calls0, use0, calls, use, all - kept)
  }

  /** What the trimmed inode means: the mappings below `cut` are kept, the others
      are gone, and the calls freed each block that left the tree once. */
  lemma TruncateDone(ptrs: nat, d0: Disk, root0: seq<nat>, d: Disk, root: seq<nat>, cut: nat, freed: multiset<nat>,
                     calls0: seq<Call>, use0: set<nat>, calls: seq<Call>, use: set<nat>)
    requires ptrs >= NDIR && cut < Limit(ptrs) && |root| == NSLOTS
    requires Tree(ptrs, d0, root0) && Elements(OwnAll(d0, root0, Inode)) <= use0
    requires var path := BlockToPath(ptrs, cut).offsets;
             && |path| >= 1 && path[0] < |root0| && |path| - 1 == Height(path[0])
             && RootTrimmed(ptrs, d0, root0, d, root, path, |root0|, freed)
             && Freed(calls0, use0, calls, use, Gone(d0, root0, path[0], |root0|, freed))
    ensures Tree(ptrs, d, root) && Elements(OwnAll(d, root, Inode)) <= use
    ensures CutAt(ptrs, d0, root0, d, root, cut) && FreedBetween(d0, root0, calls0, use0, d, root, calls, use)
  {
    hide Own, Sub, Shaped, Walk;
    var path := BlockToPath(ptrs, cut).offsets;
    var gone, kept, all := Gone(d0, root0, path[0], |root0|, freed), OwnAll(d, root, Inode), OwnAll(d0, root0, Inode);
    RootCleared(ptrs, d0, root0, d, root, path, freed);
    RootDone(ptrs, d0, root0, d, root, path, freed);
    assert all == kept + gone;
    forall b: nat | 0 <= b < Limit(ptrs)
      ensures Mapping(ptrs, d, root, b) == if b < cut then Mapping(ptrs, d0, root0, b) else 0
    {
      TrimMapping(ptrs, d0, root0, d, root, cut, freed, b);
    }
    KeptInUse(all, kept, gone, use0, use);
  }

  lemma KeptInUse(all: multiset<nat>, kept: multiset<nat>, gone: multiset<nat>, use0: set<nat>, use: set<nat>)
    requires all == kept + gone && Unshared(all) && Elements(all) <= use0 && use == use0 - Elements(gone)
    ensures Elements(kept) <= use && kept <= all && all - kept == gone
  {
    UnsharedPart(all, kept, gone);
    forall b | b in kept ensures b in use {
      assert b in Elements(all);
    }
  }
}

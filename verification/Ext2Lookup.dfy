/** ext2_get_blocks (io_uring/inode.c): a lookup without locks, while others change the tree, and an
    allocation under the mutex if that is needed. */
module Ext2Lookup {
  import opened Ext2Path
  import opened Ext2Tree
  import opened Ext2Trunc
  import opened Ext2
  import opened Ext2Alloc

  /** The tree at one moment, and the tree at each moment of a lookup. */
  datatype Snap = Snap(disk: Disk, root: seq<nat>)
  type Moments = nat -> Snap

  ghost predicate TreeAt(ptrs: nat, at: Moments, i: nat) {
    Tree(ptrs, at(i).disk, at(i).root)
  }

  /** At each moment the tree is well formed and unshared. */
  ghost predicate Trees(ptrs: nat, at: Moments) {
    ptrs >= NDIR && forall i: nat :: TreeAt(ptrs, at, i)
  }

  ghost predicate ChainAt(at: Moments, i: int, path: seq<nat>, keys: seq<nat>) {
    i >= 0 && IsChain(at(i).disk, at(i).root, path, keys)
  }

  /** What a block is mapped to at a moment. */
  ghost function MapAt(ptrs: nat, at: Moments, i: nat, b: nat): nat {
    if ptrs >= NDIR && |at(i).root| == NSLOTS && b < Limit(ptrs) then Mapping(ptrs, at(i).disk, at(i).root, b) else 0
  }

  /** The pointer `j` slots to the right of the last one of a chain, in the node as it is now, whether the node still
      belongs to the tree or not. */
  function Cell(s: Snap, path: seq<nat>, keys: seq<nat>, j: nat): nat {
    if path == [] || |keys| != |path| then 0
    else
      var last := |path| - 1;
      var cells := if last == 0 then s.root else if keys[last - 1] in s.disk then s.disk[keys[last - 1]] else [];
      if path[last] + j < |cells| then cells[path[last] + j] else 0
  }

  /** How block `iblock + j` was counted.  The chain was in place at moment `k + 2 * j - 1`, and the pointer was
      read one moment later.  If the chain was still in place then, the block was mapped. */
  ghost predicate SeenAt(ptrs: nat, at: Moments, k: nat, iblock: nat, keys: seq<nat>, j: nat)
    requires ptrs >= NDIR
  {
    var path := BlockToPath(ptrs, iblock).offsets;
    && |keys| == |path| >= 1
    && (j > 0 ==> ChainAt(at, k + 2 * j - 1, path, keys))
    && Cell(at(k + 2 * j), path, keys, j) == keys[|keys| - 1] + j
    && (ChainAt(at, k + 2 * j, path, keys) ==> MapAt(ptrs, at, k + 2 * j, iblock + j) == keys[|keys| - 1] + j)
  }

  ghost predicate SeenFrom(ptrs: nat, at: Moments, k: nat, iblock: nat, keys: seq<nat>, count: nat)
    requires ptrs >= NDIR
  {
    && iblock + count <= Limit(ptrs) && ChainAt(at, k, BlockToPath(ptrs, iblock).offsets, keys)
    && forall j: nat :: j < count ==> SeenAt(ptrs, at, k, iblock, keys, j)
  }

  /** Follows the path pointer by pointer.  Before it takes the next pointer it checks that the ones it has are still
      in place, so that together they are the chain of one moment. */
  method GetBranch(ptrs: nat, at: Moments, path: seq<nat>, bad: set<nat>) returns (keys: seq<nat>, err: Errno)
    requires Trees(ptrs, at) && ValidPath(ptrs, path)
    ensures ChainAt(at, |keys| - 1, path, keys)
    ensures err == OK ==> |keys| == |path| || keys[|keys| - 1] == 0
    ensures err != OK ==> |keys| < |path| && keys[|keys| - 1] != 0
    ensures err == OK || (err == EIO && keys[|keys| - 1] in bad) || (err == EAGAIN && !ChainAt(at, |keys|, path, keys))
  {
    hide Own, Sub, Shaped, Walk, Tree, ShapedSlots;
    TreeRoot(ptrs, at, 0);
    var key := at(0).root[path[0]];
    keys := [key];
    while |keys| < |path| && key != 0
      invariant ChainAt(at, |keys| - 1, path, keys) && key == keys[|keys| - 1]
      decreases |path| - |keys|
    {
      if key in bad {
        return keys, EIO;
      }
      var now := at(|keys|);
      assert TreeAt(ptrs, at, |keys|);
      var same := VerifyChain(ptrs, now.disk, now.root, path, keys);
      if !same {
        return keys, EAGAIN;
      }
      NextKey(ptrs, now.disk, now.root, path, keys);
      key := now.disk[key][path[|keys|]];
      keys := keys + [key];
    }
    err := OK;
  }

  /** Counts how many blocks after the first one are mapped to consecutive blocks, up to the end of the node.  In each
      round it checks that the chain is still in place, and then reads the next pointer without a lock. */
  method MapMore(ptrs: nat, at: Moments, k: nat, iblock: nat, maxblocks: nat, keys: seq<nat>)
    returns (count: nat, err: Errno, ghost j: nat)
    requires Trees(ptrs, at) && iblock < Limit(ptrs) && maxblocks >= 1
    requires ChainAt(at, k, BlockToPath(ptrs, iblock).offsets, keys) && |keys| == |BlockToPath(ptrs, iblock).offsets|
    ensures err == OK || err == EAGAIN
    ensures var p, first := BlockToPath(ptrs, iblock), keys[|keys| - 1];
      if err == OK then
        && 1 <= count <= maxblocks && count <= p.boundary + 1 && SeenFrom(ptrs, at, k, iblock, keys, count)
        && (count == maxblocks || count == p.boundary + 1
             || Cell(at(k + 2 * count), p.offsets, keys, count) != first + count)
      else count == 0 && !ChainAt(at, k + j, p.offsets, keys)
  {
    hide Own, Sub, Shaped, Walk, Tree, Mapping, Cell, IsChain, SeenFrom, BlockToPath;
    var p := BlockToPath(ptrs, iblock);
    ChainKeys(at, k, p.offsets, keys);
    var first := keys[|keys| - 1];
    BlockRoundTrip(ptrs, iblock);
    BoundaryCounts(ptrs, iblock, 0);
    FoundFirst(ptrs, at, k, iblock, keys);
    count, j := 1, 0;
    while count < maxblocks && count <= p.boundary
      invariant 1 <= count <= maxblocks && count <= p.boundary + 1 && SeenFrom(ptrs, at, k, iblock, keys, count)
      decreases maxblocks - count
    {
      var now := at(k + 2 * count - 1);
      assert TreeAt(ptrs, at, k + 2 * count - 1);
      var same := VerifyChain(ptrs, now.disk, now.root, p.offsets, keys);
      if !same {
        j := 2 * count - 1;
        return 0, EAGAIN, j;
      }
      var blk := Cell(at(k + 2 * count), p.offsets, keys, count);
      if blk != first + count {
        break;
      }
      SeenNext(ptrs, at, k, iblock, keys, count);
      count := count + 1;
    }
    err := OK;
  }

  lemma SeenNext(ptrs: nat, at: Moments, k: nat, iblock: nat, keys: seq<nat>, j: nat)
    requires Trees(ptrs, at) && iblock < Limit(ptrs) && 0 < j <= BlockToPath(ptrs, iblock).boundary
    requires |keys| == |BlockToPath(ptrs, iblock).offsets| >= 1 && SeenFrom(ptrs, at, k, iblock, keys, j)
    requires var path := BlockToPath(ptrs, iblock).offsets;
      ChainAt(at, k + 2 * j - 1, path, keys) && Cell(at(k + 2 * j), path, keys, j) == keys[|keys| - 1] + j
    ensures SeenFrom(ptrs, at, k, iblock, keys, j + 1)
  {
    hide Own, Sub, Shaped, Walk, Tree, Mapping, Cell, IsChain, BlockToPath;
    CellMaps(ptrs, at, k + 2 * j, iblock, keys, j);
    assert SeenAt(ptrs, at, k, iblock, keys, j);
  }

  lemma ChainKeys(at: Moments, i: nat, path: seq<nat>, keys: seq<nat>)
    requires ChainAt(at, i, path, keys)
    ensures 1 <= |keys| <= |path| && forall j :: 0 <= j < |keys| - 1 ==> keys[j] != 0
  {
  }

  /** While the chain is in place, the pointers to the right of it are the mappings of the following blocks. */
  lemma CellMaps(ptrs: nat, at: Moments, i: nat, iblock: nat, keys: seq<nat>, j: nat)
    requires Trees(ptrs, at) && iblock < Limit(ptrs) && j <= BlockToPath(ptrs, iblock).boundary
    requires |keys| == |BlockToPath(ptrs, iblock).offsets|
    ensures iblock + j < Limit(ptrs)
    ensures var path := BlockToPath(ptrs, iblock).offsets;
      ChainAt(at, i, path, keys) ==> MapAt(ptrs, at, i, iblock + j) == Cell(at(i), path, keys, j)
  {
    hide Own, Sub, Shaped, Walk, Tree, Mapping;
    BoundaryCounts(ptrs, iblock, j);
    assert TreeAt(ptrs, at, i);
    TreeRoot(ptrs, at, i);
    if ChainAt(at, i, BlockToPath(ptrs, iblock).offsets, keys) {
      LeafMaps(ptrs, at(i).disk, at(i).root, iblock, keys, j);
    }
  }

  lemma FoundFirst(ptrs: nat, at: Moments, k: nat, iblock: nat, keys: seq<nat>)
    requires Trees(ptrs, at) && iblock < Limit(ptrs)
    requires ChainAt(at, k, BlockToPath(ptrs, iblock).offsets, keys) && |keys| == |BlockToPath(ptrs, iblock).offsets|
    ensures BlockToPath(ptrs, iblock).boundary >= 0 && SeenFrom(ptrs, at, k, iblock, keys, 1)
    ensures MapAt(ptrs, at, k, iblock) == keys[|keys| - 1]
  {
    hide Own, Sub, Shaped, Walk, Tree, Mapping;
    BoundaryCounts(ptrs, iblock, 0);
    CellMaps(ptrs, at, k, iblock, keys, 0);
    assert SeenAt(ptrs, at, k, iblock, keys, 0);
  }

  /** Without the chain the pointer that is read may be anything: here the node has left the tree between the check
      and the read, and the second block is counted although it is unmapped at every moment. */
  lemma StaleRead() returns (at: Moments, keys: seq<nat>, second: nat)
    ensures Trees(NDIR, at) && BlockToPath(NDIR, NDIR).boundary >= 1 && SeenFrom(NDIR, at, 1, NDIR, keys, 2)
    ensures second == NDIR + 1 && forall i: nat :: MapAt(NDIR, at, i, second) == 0
  {
    hide Own, Sub, Shaped, Walk, Tree, Mapping;
    var zeros: seq<nat> := seq(NDIR, _ => 0);
    var root: seq<nat> := seq(NSLOTS, i => if i == NDIR then 100 else 0);
    var before, after := Snap(map[100 := zeros[0 := 200]], root),
        Snap(map[100 := zeros[1 := 201]], seq(NSLOTS, _ => 0));
    at := i => if i <= 2 then before else after;
    keys, second := [100, 200], NDIR + 1;
    SmallTree(NDIR, before.disk, root, NDIR, 100, 200);
    EmptyTree(NDIR, after.disk, after.root);
    assert forall i: nat :: TreeAt(NDIR, at, i);
    assert BlockToPath(NDIR, NDIR) == Path([NDIR, 0], NDIR - 1);
    assert BlockToPath(NDIR, NDIR + 1) == Path([NDIR, 1], NDIR - 2);
    Capacities(NDIR);
    assert ChainAt(at, 1, [NDIR, 0], keys) && ChainAt(at, 2, [NDIR, 0], keys);
    FoundFirst(NDIR, at, 1, NDIR, keys);
    SeenNext(NDIR, at, 1, NDIR, keys, 1);
    ChainMaps(NDIR, before.disk, root, NDIR + 1, [100, 0]);
    ChainMaps(NDIR, after.disk, after.root, NDIR + 1, [0]);
  }

  lemma TreeRoot(ptrs: nat, at: Moments, i: nat)
    requires Trees(ptrs, at)
    ensures |at(i).root| == NSLOTS
  {
    assert TreeAt(ptrs, at, i);
  }

  // ----- ext2_get_blocks -----

  /** What a lookup found without the mutex. */
  ghost predicate Found(ptrs: nat, at: Moments, iblock: nat, maxblocks: nat, count: nat, bno: nat)
    requires ptrs >= NDIR
  {
    && bno > 0 && 1 <= count <= maxblocks && count <= BlockToPath(ptrs, iblock).boundary + 1
    && exists k: nat, keys :: FoundFrom(ptrs, at, k, iblock, keys, count, bno)
  }

  /** The first block was mapped to `bno` when the chain `keys` was complete, and the others were counted after that. */
  ghost predicate FoundFrom(ptrs: nat, at: Moments, k: nat, iblock: nat, keys: seq<nat>, count: nat, bno: nat)
    requires ptrs >= NDIR
  {
    keys != [] && keys[|keys| - 1] == bno && MapAt(ptrs, at, k, iblock) == bno
        && SeenFrom(ptrs, at, k, iblock, keys, count)
  }

  ghost predicate Missed(ptrs: nat, at: Moments, iblock: nat) {
    exists k: nat :: MapAt(ptrs, at, k, iblock) == 0
  }

  /** The tree was changed by somebody else. */
  ghost predicate Changed(at: Moments) {
    exists i: nat :: at(i) != at(0)
  }

  /** Nothing but `maxblocks`, the end of the node or a gap keeps `count` from being greater. */
  ghost predicate AsManyAs(ptrs: nat, d: Disk, root: seq<nat>, iblock: nat, maxblocks: nat, count: nat, bno: nat)
    requires ptrs >= NDIR && |root| == NSLOTS
  {
    count == maxblocks || count == BlockToPath(ptrs, iblock).boundary + 1
        || !Consecutive(ptrs, d, root, iblock, count + 1, bno)
  }

  /** What a lookup found in a tree that nobody changed. */
  ghost predicate FoundAlone(ptrs: nat, d: Disk, root: seq<nat>, iblock: nat, maxblocks: nat, err: Errno, count: nat,
      bno: nat)
    requires ptrs >= NDIR && |root| == NSLOTS && iblock < Limit(ptrs)
  {
    && err != EAGAIN && (err == OK ==> Mapping(ptrs, d, root, iblock) == bno)
    && (err == OK && bno != 0 ==>
          && count > 0 && Consecutive(ptrs, d, root, iblock, count, bno)
          && AsManyAs(ptrs, d, root, iblock, maxblocks, count, bno))
  }

  /** The part of the lookup that runs without the mutex. */
  method Lookup(ptrs: nat, at: Moments, iblock: nat, maxblocks: nat, bad: set<nat>)
      returns (keys: seq<nat>, err: Errno, count: nat)
    requires Trees(ptrs, at) && iblock < Limit(ptrs) && maxblocks >= 1
    ensures 1 <= |keys| <= |BlockToPath(ptrs, iblock).offsets| && forall i :: 0 <= i < |keys| - 1 ==> keys[i] != 0
    ensures err == OK || (err == EIO && bad != {}) || (err == EAGAIN && Changed(at))
    ensures err != OK ==> count == 0
    ensures err == OK ==> if count > 0 then Found(ptrs, at, iblock, maxblocks, count, keys[|keys| - 1])
                          else keys[|keys| - 1] == 0 && Missed(ptrs, at, iblock)
    ensures |at(0).root| == NSLOTS && (!Changed(at) ==>
        FoundAlone(ptrs, at(0).disk, at(0).root, iblock, maxblocks, err, count, keys[|keys| - 1]))
  {
    hide Own, Sub, Shaped, Walk, Tree, Mapping, SeenFrom, Changed, FoundAlone;
    var p := BlockToPath(ptrs, iblock);
    BlockRoundTrip(ptrs, iblock);
    BoundaryCounts(ptrs, iblock, 0);
    TreeRoot(ptrs, at, 0);
    count := 0;
    keys, err := GetBranch(ptrs, at, p.offsets, bad);
    var k: nat := |keys| - 1;
    if err == OK && keys[k] != 0 {
      ghost var j;
      count, err, j := MapMore(ptrs, at, k, iblock, maxblocks, keys);
      if err == OK {
        FoundFirst(ptrs, at, k, iblock, keys);
        assert FoundFrom(ptrs, at, k, iblock, keys, count, keys[k]);
        AloneFound(ptrs, at, k, iblock, maxblocks, keys, count);
      } else {
        ChainLost(at, k, k + j, p.offsets, keys);
        AloneFailed(ptrs, at, iblock, maxblocks, err, keys[k]);
      }
    } else if err == OK {
      AloneMissed(ptrs, at, k, iblock, maxblocks, keys);
    } else {
      if err == EAGAIN {
        ChainLost(at, k, k + 1, p.offsets, keys);
      }
      AloneFailed(ptrs, at, iblock, maxblocks, err, keys[k]);
    }
  }

  lemma ChainLost(at: Moments, i: nat, j: nat, path: seq<nat>, keys: seq<nat>)
    requires ChainAt(at, i, path, keys) && !ChainAt(at, j, path, keys)
    ensures Changed(at)
  {
    assert at(i) != at(j);
    assert at(i) != at(0) || at(j) != at(0);
  }

  lemma AloneFound(ptrs: nat, at: Moments, k: nat, iblock: nat, maxblocks: nat, keys: seq<nat>, count: nat)
    requires Trees(ptrs, at) && iblock < Limit(ptrs) && 1 <= count <= BlockToPath(ptrs, iblock).boundary + 1
    requires |keys| == |BlockToPath(ptrs, iblock).offsets| >= 1 && SeenFrom(ptrs, at, k, iblock, keys, count)
    requires var p := BlockToPath(ptrs, iblock);
      || count == maxblocks || count == p.boundary + 1
      || Cell(at(k + 2 * count), p.offsets, keys, count) != keys[|keys| - 1] + count
    ensures |at(0).root| == NSLOTS
    ensures !Changed(at) ==>
      FoundAlone(ptrs, at(0).disk, at(0).root, iblock, maxblocks, OK, count, keys[|keys| - 1])
  {
    hide Tree, Mapping, Own, Sub, Shaped, Walk, Cell, IsChain;
    TreeRoot(ptrs, at, 0);
    if !Changed(at) {
      var d, root, bno := at(0).disk, at(0).root, keys[|keys| - 1];
      assert at(k) == at(0);
      forall b | iblock <= b < iblock + count ensures Mapping(ptrs, d, root, b) == bno + (b - iblock) {
        assert SeenAt(ptrs, at, k, iblock, keys, b - iblock) && at(k + 2 * (b - iblock)) == at(0);
      }
      if count <= BlockToPath(ptrs, iblock).boundary {
        assert at(k + 2 * count) == at(0);
        CellMaps(ptrs, at, k + 2 * count, iblock, keys, count);
        NextConsecutive(ptrs, d, root, iblock, count, bno);
      }
    }
  }

  lemma AloneFailed(ptrs: nat, at: Moments, iblock: nat, maxblocks: nat, err: Errno, key: nat)
    requires Trees(ptrs, at) && iblock < Limit(ptrs) && (err == EIO || (err == EAGAIN && Changed(at)))
    ensures |at(0).root| == NSLOTS && (!Changed(at) ==>
        FoundAlone(ptrs, at(0).disk, at(0).root, iblock, maxblocks, err, 0, key))
  {
    TreeRoot(ptrs, at, 0);
  }

  lemma AloneMissed(ptrs: nat, at: Moments, k: nat, iblock: nat, maxblocks: nat, keys: seq<nat>)
    requires Trees(ptrs, at) && iblock < Limit(ptrs) && ChainAt(at, k, BlockToPath(ptrs, iblock).offsets, keys)
        && keys[|keys| - 1] == 0
    ensures Missed(ptrs, at, iblock)
    ensures |at(0).root| == NSLOTS && (!Changed(at) ==>
        FoundAlone(ptrs, at(0).disk, at(0).root, iblock, maxblocks, OK, 0, 0))
  {
    hide Tree, Mapping, Own, Sub, Shaped, Walk;
    TreeRoot(ptrs, at, 0);
    TreeRoot(ptrs, at, k);
    assert TreeAt(ptrs, at, k);
    ChainMaps(ptrs, at(k).disk, at(k).root, iblock, keys);
    assert MapAt(ptrs, at, k, iblock) == 0;
    assert !Changed(at) ==> at(k) == at(0);
  }

  /** The answer of a lookup without the mutex: found while it ran, not there at some moment, an unreadable block, or a
      tree that changed meanwhile. */
  ghost predicate FreeAnswer(ptrs: nat, at: Moments, iblock: nat, maxblocks: nat, create: bool, bad: set<nat>,
      err: Errno, count: nat, bno: nat)
    requires ptrs >= NDIR
  {
    if err == OK && count > 0 then Found(ptrs, at, iblock, maxblocks, count, bno)
    else if err == OK then !create && Missed(ptrs, at, iblock)
    else (err == EIO && bad != {}) || (err == EAGAIN && !create && Changed(at))
  }

  /** The answer of a lookup that others may disturb. */
  ghost predicate Raced(v0: Volume, v1: Volume, at: Moments, iblock: nat, maxblocks: nat, create: bool, bad: set<nat>,
                        err: Errno, count: nat, bno: nat, isNew: bool) {
    || (v1 == v0 && !isNew && v0.ptrs >= NDIR
         && FreeAnswer(v0.ptrs, at, iblock, maxblocks, create, bad, err, count, bno))
    || (create && (err == OK ==> count > 0) && Answered(v0, v1, iblock, maxblocks, err, count, bno, isNew))
  }

  /** What a lookup promises if nobody else changes the tree, beyond `Answered`: nothing but an unreadable block or
      a failed allocation keeps it from answering, and a block that is mapped to `was` is found without allocating. */
  ghost predicate Prompt(ptrs: nat, d: Disk, root: seq<nat>, was: nat, iblock: nat, maxblocks: nat, create: bool,
      bad: set<nat>,
                         err: Errno, count: nat, bno: nat, isNew: bool)
    requires ptrs >= NDIR && |root| == NSLOTS && iblock < Limit(ptrs)
  {
    && (err == OK && count == 0 ==> !create && was == 0)
    && (bad == {} && !create ==> err == OK)
    && (bad == {} && was != 0 ==> err == OK && !isNew && AsManyAs(ptrs, d, root, iblock, maxblocks, count, bno))
  }

  /** The tree was `d` and `root` all the time. */
  ghost predicate Alone(at: Moments, d: Disk, root: seq<nat>) {
    !Changed(at) && at(0) == Snap(d, root)
  }

  lemma AnswerFree(ptrs: nat, at: Moments, d: Disk, root: seq<nat>, iblock: nat, maxblocks: nat, create: bool,
      bad: set<nat>, err: Errno, count: nat, key: nat)
    requires ptrs >= NDIR && |root| == NSLOTS && iblock < Limit(ptrs) && (count > 0 || !create || err == EIO)
    requires err == OK || (err == EIO && bad != {}) || (err == EAGAIN && Changed(at))
    requires err != OK ==> count == 0
    requires err == OK ==> if count > 0 then Found(ptrs, at, iblock, maxblocks, count, key)
        else key == 0 && Missed(ptrs, at, iblock)
    requires |at(0).root| == NSLOTS && (!Changed(at) ==>
        FoundAlone(ptrs, at(0).disk, at(0).root, iblock, maxblocks, err, count, key))
    ensures var bno := if count > 0 then key else 0;
      && FreeAnswer(ptrs, at, iblock, maxblocks, create, bad, err, count, bno)
      && (count > 0 ==> bno > 0 && count <= maxblocks && count <= BlockToPath(ptrs, iblock).boundary + 1)
      && (Alone(at, d, root) ==>
            && (err == OK && count > 0 ==> Consecutive(ptrs, d, root, iblock, count, bno))
            && Prompt(ptrs, d, root, Mapping(ptrs, d, root, iblock), iblock, maxblocks, create, bad, err, count, bno,
                 false))
  {
    hide Own, Sub, Shaped, Walk, Changed, Tree, Missed, Mapping, FoundFrom, Consecutive, AsManyAs;
    BoundaryCounts(ptrs, iblock, 0);
  }

  /** Looks up `iblock` and the blocks that follow it, and allocates if asked to.  While it looks, the tree is
      `at(0)`, `at(1)`, ...; `m` is the tree once it holds the mutex.  Blocks in `bad` cannot be read; for those in
      `noBuf` there is no buffer. */
  method GetBlocks(m: BlockMap, at: Moments, iblock: int, maxblocks: nat, create: bool, bad: set<nat>, noBuf: set<nat>)
    returns (err: Errno, count: nat, bno: nat, isNew: bool, boundary: bool)
    requires m.Valid() && Trees(m.ptrs, at)
    modifies m`disk, m`inUse, m`calls, m`grants, m.iData
    ensures m.Valid()
    ensures maxblocks == 0 ==> err == EINVAL
    ensures maxblocks > 0 && !(0 <= iblock < Limit(m.ptrs)) ==> err == EIO
    ensures maxblocks == 0 || !(0 <= iblock < Limit(m.ptrs)) || !create ==> m.Now() == old(m.Now())
    ensures maxblocks > 0 && 0 <= iblock < Limit(m.ptrs) ==>
              && Raced(old(m.Now()), m.Now(), at, iblock, maxblocks, create, bad, err, count, bno, isNew)
              && (err == OK && count > 0 ==> (boundary <==> count == BlockToPath(m.ptrs, iblock).boundary + 1))
              && (old(Alone(at, m.disk, m.iData[..])) ==>
                    && Answered(old(m.Now()), m.Now(), iblock, maxblocks, err, count, bno, isNew)
                    && Prompt(m.ptrs, m.disk, m.iData[..], old(Mapping(m.ptrs, m.disk, m.iData[..], iblock)), iblock,
                         maxblocks, create, bad, err, count, bno, isNew))
  {
    hide Own, Sub, Shaped, Walk, Changed, Tree, Found, Missed, Trees, Mapping, FoundAlone, Raced, Prompt, Answered,
        Alone;
    err, count, bno, isNew, boundary := EINVAL, 0, 0, false, false;
    if maxblocks == 0 {
      return;
    }
    var p := BlockToPath(m.ptrs, iblock);
    NoPath(m.ptrs, iblock);
    if p.offsets == [] {
      err := EIO;
      return;
    }
    BoundaryCounts(m.ptrs, iblock, 0);
    err, count, bno, isNew := Resolve(m, at, iblock, maxblocks, create, bad, noBuf);
    boundary := err == OK && count > p.boundary;
  }

  /** The lookup of a block within reach. */
  method Resolve(m: BlockMap, at: Moments, iblock: nat, maxblocks: nat, create: bool, bad: set<nat>, noBuf: set<nat>)
    returns (err: Errno, count: nat, bno: nat, isNew: bool)
    requires m.Valid() && Trees(m.ptrs, at) && iblock < Limit(m.ptrs) && maxblocks > 0
    modifies m`disk, m`inUse, m`calls, m`grants, m.iData
    ensures m.Valid() && (err == OK ==> count <= BlockToPath(m.ptrs, iblock).boundary + 1)
    ensures !create ==> m.Now() == old(m.Now())
    ensures Raced(old(m.Now()), m.Now(), at, iblock, maxblocks, create, bad, err, count, bno, isNew)
    ensures old(Alone(at, m.disk, m.iData[..])) ==>
              && Answered(old(m.Now()), m.Now(), iblock, maxblocks, err, count, bno, isNew)
              && Prompt(m.ptrs, m.disk, m.iData[..], old(Mapping(m.ptrs, m.disk, m.iData[..], iblock)), iblock,
                   maxblocks, create, bad, err, count, bno, isNew)
  {
    hide Own, Sub, Shaped, Walk, Changed, Tree, Found, Missed, Trees, Mapping, FreeAnswer, FoundAlone, Consecutive,
        AsManyAs, Extended;
    BoundaryCounts(m.ptrs, iblock, 0);
    var keys, was, found := Lookup(m.ptrs, at, iblock, maxblocks, bad);
    var key := keys[|keys| - 1];
    if found > 0 || !create || was == EIO {
      err, count, bno, isNew := was, found, if found > 0 then key else 0, false;
      AnswerFree(m.ptrs, at, m.disk, m.iData[..], iblock, maxblocks, create, bad, err, count, key);
    } else {
      FoundNone(m.ptrs, at, m.disk, m.iData[..], iblock, maxblocks, was, key);
      err, count, bno, isNew := AllocateLocked(m, iblock, maxblocks, keys, was == EAGAIN, bad, noBuf);
    }
  }

  lemma FoundNone(ptrs: nat, at: Moments, d: Disk, root: seq<nat>, iblock: nat, maxblocks: nat, err: Errno, key: nat)
    requires ptrs >= NDIR && |root| == |at(0).root| == NSLOTS && iblock < Limit(ptrs) && (err == OK ==> key == 0)
        && err != EIO
    requires err == OK || (err == EAGAIN && Changed(at))
    requires !Changed(at) ==> FoundAlone(ptrs, at(0).disk, at(0).root, iblock, maxblocks, err, 0, key)
    ensures Alone(at, d, root) ==> Mapping(ptrs, d, root, iblock) == 0
  {
  }
}

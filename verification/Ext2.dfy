/** The ext2 block map operations (io_uring/inode.c).  Pointer arrays are
    written in place: `iData` is the inode's, `disk` holds those of the
    indirect blocks. */
module Ext2 {
  import opened Ext2Path
  import opened Ext2Tree
  import opened Ext2Free
  import opened Ext2Trunc

  datatype Errno = OK | EIO | EAGAIN | ENOSPC | ENOMEM | EINVAL

  /** Which pointer array a pointer of the source points into. */
  datatype Host = InInode | InBlock(nr: nat)

  /** A file at one moment: its tree, the blocks that the file system has handed out, the calls of ext2_free_blocks made
      so far and the runs that ext2_new_blocks has returned. */
  datatype Volume = Volume(ptrs: nat, disk: Disk, root: seq<nat>, inUse: set<nat>, calls: seq<Call>, grants: seq<Call>)

  ghost predicate Sane(v: Volume) {
    v.ptrs >= NDIR && |v.root| == NSLOTS
  }

  /** The tree is well formed and unshared, and its blocks are in use. */
  ghost predicate Good(v: Volume) {
    Sane(v) && Tree(v.ptrs, v.disk, v.root) && Elements(OwnAll(v.disk, v.root, Inode)) <= v.inUse
  }

  /** The mappings below `cut` are kept, the others are gone, and each block that has left the tree was freed once. */
  ghost predicate Truncated(v: Volume, v': Volume, cut: nat) {
    && Sane(v) && Sane(v') && v'.ptrs == v.ptrs && v'.grants == v.grants
    && CutAt(v.ptrs, v.disk, v.root, v'.disk, v'.root, cut)
    && FreedBetween(v.disk, v.root, v.calls, v.inUse, v'.disk, v'.root, v'.calls, v'.inUse)
  }

  class BlockMap {
    const ptrs: nat
    const iData: array<nat>
    var disk: Disk
    /** The blocks the file system has handed out. */
    var inUse: set<nat>
    /** The calls of ext2_free_blocks made so far, and the runs that
        ext2_new_blocks has returned. */
    var calls: seq<Call>
    var grants: seq<Call>

    /** The tree is well formed and unshared, and its blocks are in use. */
    ghost predicate Valid()
      reads this, iData
    {
      && ptrs >= NDIR
      && iData.Length == NSLOTS
      && Tree(ptrs, disk, iData[..])
      && Elements(OwnAll(disk, iData[..], Inode)) <= inUse
    }

    ghost function Now(): Volume
      reads this, iData
    {
      Volume(ptrs, disk, iData[..], inUse, calls, grants)
    }

    ghost predicate Has(host: Host)
      reads this
    {
      host.InBlock? ==> host.nr in disk
    }

    /** The disk after the pointers of `host` have become `s`. */
    static function Stored(d: Disk, host: Host, s: seq<nat>): Disk {
      match host
      case InInode => d
      case InBlock(nr) => d[nr := s]
    }

    function Cells(host: Host): seq<nat>
      requires Has(host)
      reads this, iData
    {
      match host
      case InInode => iData[..]
      case InBlock(nr) => disk[nr]
    }

    /** A file without blocks. */
    constructor (ptrs: nat)
      requires ptrs >= NDIR
      ensures Valid() && fresh(iData) && this.ptrs == ptrs
      ensures OwnAll(disk, iData[..], Inode) == multiset{} && calls == [] && grants == []
    {
      this.ptrs := ptrs;
      iData := new nat[NSLOTS](_ => 0);
      disk, inUse, calls, grants := map[], {}, [], [];
      new;
      EmptyTree(ptrs, disk, iData[..]);
      hide Own, Sub, Shaped, Walk, Tree;
    }

    method SetCell(host: Host, i: nat, v: nat)
      requires Has(host) && i < |Cells(host)|
      modifies this`disk, iData
      ensures Has(host) && Cells(host) == old(Cells(host))[i := v]
      ensures disk == Stored(old(disk), host, Cells(host))
      ensures host.InBlock? ==> iData[..] == old(iData[..])
    {
      match host
      case InInode => iData[i] := v;
      case InBlock(nr) =>
        var s: seq<nat> := disk[nr][i := v];
        disk := disk[nr := s];
    }

    /** Reads a pointer and clears it if it was set; the slots from `lo` up to `i`
        have been cleared before. */
    method TakeCell(host: Host, i: nat, ghost s0: seq<nat>, ghost lo: nat, ghost d0: Disk) returns (nr: nat)
      requires Has(host) && lo <= i < |s0| && Cells(host) == Cleared(s0, lo, i)
      requires disk == Stored(d0, host, Cells(host))
      modifies this`disk, iData
      ensures Has(host) && Cells(host) == Cleared(s0, lo, i + 1) && nr == s0[i]
      ensures disk == Stored(d0, host, Cells(host))
      ensures host.InBlock? ==> iData[..] == old(iData[..])
    {
      hide Own, Sub, Shaped, Walk;
      nr := Cells(host)[i];
      if nr != 0 {
        SetCell(host, i, 0);
      }
    }

    /** Stands for ext2_free_blocks: the blocks must be in use, so that nothing
        can be freed twice. */
    method FreeBlocks(start: nat, count: nat)
      requires forall b :: b in Run(start, count) ==> b in inUse
      modifies this`inUse, this`calls
      ensures calls == old(calls) + [Call(start, count)]
      ensures inUse == old(inUse) - set b | b in Run(start, count)
    {
      calls := calls + [Call(start, count)];
      inUse := inUse - set b | b in Run(start, count);
    }

    /** Clears the data pointers in `lo..hi` and frees what they point to, one
        call for each run of consecutive blocks. */
    method FreeData(host: Host, lo: nat, hi: nat)
      requires Has(host) && lo <= hi <= |Cells(host)|
      requires Freeable(Cells(host), lo, hi, inUse)
      modifies this`disk, this`inUse, this`calls, iData
      ensures Has(host) && Cells(host) == Cleared(old(Cells(host)), lo, hi)
      ensures disk == Stored(old(disk), host, Cells(host))
      ensures host.InBlock? ==> iData[..] == old(iData[..])
      ensures calls == old(calls) + DataCalls(old(Cells(host)), lo, hi)
      ensures inUse == old(inUse) - set b | b in NonZero(old(Cells(host)), lo, hi)
    {
      hide Own, Sub, Shaped, Walk, Freeable, NonZero, DataCalls;
      ghost var s0, calls0, use0 := Cells(host), calls, inUse;
      var start, count := 0, 0;
      var p := lo;
      assert Collected(s0, lo, p, calls0, use0, start, count);
      hide Collected, Coalesce, Expand;
      assert Cells(host) == Cleared(s0, lo, lo) && disk == Stored(old(disk), host, Cells(host));
      hide Cleared, Stored;
      while p < hi
        invariant lo <= p <= hi
        invariant Has(host) && Cells(host) == Cleared(s0, lo, p)
        invariant disk == Stored(old(disk), host, Cells(host))
        invariant host.InBlock? ==> iData[..] == old(iData[..])
        invariant Collected(s0, lo, p, calls0, use0, start, count)
      {
        var nr := TakeCell(host, p, s0, lo, old(disk));
        start, count := Collect(nr, start, count, s0, lo, p, hi, calls0, use0);
        p := p + 1;
      }
      FreeLastRun(start, count, s0, lo, hi, calls0, use0);
    }

    /** The nonzero pointers of `s[lo..hi]` are distinct and in use. */
    ghost predicate Freeable(s: seq<nat>, lo: nat, hi: nat, use: set<nat>)
      requires lo <= hi <= |s|
    {
      var nz := NonZero(s, lo, hi);
      Unshared(multiset(nz)) && forall b :: b in nz ==> b in use
    }

    /** ext2_free_data has visited `s[lo..p]`: the calls made since `calls0` and
        the run it holds are those of `Coalesce`. */
    ghost predicate Collected(s: seq<nat>, lo: nat, p: nat, calls0: seq<Call>, use0: set<nat>, start: nat, count: nat)
      requires lo <= p <= |s|
      reads this`calls, this`inUse
    {
      var r := Coalesce(s, lo, p);
      && r.start == start && r.count == count
      && calls == calls0 + r.done && inUse == use0 - set b | b in Expand(r.done)
    }

    /** One pointer in the loop of ext2_free_data: a nonzero one starts a run,
        extends the current one, or ends it and starts another. */
    method Collect(nr: nat, start: nat, count: nat, ghost s: seq<nat>, ghost lo: nat, ghost p: nat, ghost hi: nat,
                   ghost calls0: seq<Call>, ghost use0: set<nat>)
      returns (start': nat, count': nat)
      requires lo <= p < hi <= |s| && s[p] == nr && Freeable(s, lo, hi, use0)
      requires Collected(s, lo, p, calls0, use0, start, count)
      modifies this`inUse, this`calls
      ensures Collected(s, lo, p + 1, calls0, use0, start', count')
    {
      hide Own, Sub, Shaped, Walk;
      start', count' := start, count;
      if nr != 0 {
        if count == 0 {
          start', count' := nr, 1;
        } else if start + count == nr {
          start', count' := start, count + 1;
        } else {
          FreeRun(start, count, s, lo, p, hi, calls0, use0);
          start', count' := nr, 1;
        }
      }
    }

    method FreeLastRun(start: nat, count: nat, ghost s: seq<nat>, ghost lo: nat, ghost hi: nat,
                       ghost calls0: seq<Call>, ghost use0: set<nat>)
      requires lo <= hi <= |s| && Freeable(s, lo, hi, use0)
      requires Collected(s, lo, hi, calls0, use0, start, count)
      modifies this`inUse, this`calls
      ensures calls == calls0 + DataCalls(s, lo, hi)
      ensures inUse == use0 - set b | b in NonZero(s, lo, hi)
    {
      hide Own, Sub, Shaped, Walk;
      if count > 0 {
        FreeRun(start, count, s, lo, hi, hi, calls0, use0);
      }
      CoalesceExpands(s, lo, hi);
      DataCallsExpand(s, lo, hi);
    }

    /** Frees the run that ext2_free_data holds when it reaches slot `p`. */
    method FreeRun(start: nat, count: nat, ghost s: seq<nat>, ghost lo: nat, ghost p: nat, ghost hi: nat,
                   ghost calls0: seq<Call>, ghost use0: set<nat>)
      requires lo <= p <= hi <= |s| && Freeable(s, lo, hi, use0)
      requires Collected(s, lo, p, calls0, use0, start, count)
      modifies this`inUse, this`calls
      ensures calls == calls0 + (Coalesce(s, lo, p).done + [Call(start, count)])
      ensures inUse == use0 - set b | b in Expand(Coalesce(s, lo, p).done + [Call(start, count)])
    {
      hide Own, Sub, Shaped, Walk;
      ghost var done := Coalesce(s, lo, p).done;
      CoalesceExpands(s, lo, p);
      NonZeroPrefix(s, lo, p, hi);
      forall b | b in Run(start, count) ensures b in inUse {
        PartsApart(NonZero(s, lo, hi), Expand(done), Run(start, count), b);
      }
      FreeBlocks(start, count);
      ExpandOne(done, Call(start, count));
    }

    /** Frees the branches in the slots `lo..hi` of block `c` and clears the slots.
        Below the slots lie `h` levels of indirect blocks. */
    method FreeBranches(c: nat, lo: nat, hi: nat, h: nat)
      requires c in disk && lo <= hi <= |disk[c]|
      requires FreeableSlots(c, lo, hi, h)
      modifies this`disk, this`inUse, this`calls, iData
      ensures c in disk && disk[c] == Cleared(old(disk[c]), lo, hi) && iData[..] == old(iData[..])
      ensures var m := Own(old(disk), old(disk[c]), lo, hi, Below(h));
              Untouched(old(disk), disk, m, c) && Freed(old(calls), old(inUse), calls, inUse, m)
      decreases h, 1
    {
      hide Own, Sub, Shaped, Walk, Freed, Unshared;
      ghost var s0 := disk[c];
      if h == 0 {
        FreeDataSlots(c, lo, hi);
      } else {
        OwnNone(disk, s0, lo, Below(h));
        FreedNothing(calls, inUse);
        var p := lo;
        while p < hi
          invariant lo <= p <= hi && iData[..] == old(iData[..])
          invariant FreedUpTo(c, p, h, s0, lo, old(disk), old(calls), old(inUse))
        {
          FreeNextBranch(c, p, h, s0, lo, hi, old(disk), old(calls), old(inUse));
          p := p + 1;
        }
      }
    }

    ghost predicate FreeableSlots(c: nat, lo: nat, hi: nat, h: nat)
      requires c in disk && lo <= hi <= |disk[c]|
      reads this
    {
      var m := Own(disk, disk[c], lo, hi, Below(h));
      && ShapedSlots(ptrs, disk, disk[c], lo, hi, Below(h))
      && Unshared(m) && c !in m && Elements(m) <= inUse
    }

    method FreeDataSlots(c: nat, lo: nat, hi: nat)
      requires c in disk && lo <= hi <= |disk[c]|
      requires FreeableSlots(c, lo, hi, 0)
      modifies this`disk, this`inUse, this`calls, iData
      ensures c in disk && disk[c] == Cleared(old(disk[c]), lo, hi) && iData[..] == old(iData[..])
      ensures var m := Own(old(disk), old(disk[c]), lo, hi, Below(0));
              Untouched(old(disk), disk, m, c) && Freed(old(calls), old(inUse), calls, inUse, m)
    {
      hide Own, Sub, Shaped, Walk;
      ghost var s0, m := disk[c], Own(disk, disk[c], lo, hi, Below(0));
      OwnData(disk, s0, lo, hi, Below(0));
      FreeData(InBlock(c), lo, hi);
      DataFreed(old(calls), old(inUse), calls, inUse, s0, lo, hi);
    }

    /** Of the slots of block `c`, once `s0`, those from `lo` up to `p` are freed. */
    ghost predicate FreedUpTo(c: nat, p: nat, h: nat, s0: seq<nat>, lo: nat, d0: Disk, calls0: seq<Call>,
        use0: set<nat>)
      requires lo <= p <= |s0|
      reads this
    {
      var m := Own(d0, s0, lo, p, Below(h));
      && c in disk && disk[c] == Cleared(s0, lo, p)
      && Untouched(d0, disk, m, c) && Freed(calls0, use0, calls, inUse, m)
    }

    /** One slot in the loop of ext2_free_branches. */
    method FreeNextBranch(c: nat, p: nat, h: nat, ghost s0: seq<nat>, ghost lo: nat, ghost hi: nat,
                          ghost d0: Disk, ghost calls0: seq<Call>, ghost use0: set<nat>)
      requires h >= 1 && lo <= p < hi <= |s0|
      requires var m := Own(d0, s0, lo, hi, Below(h));
               ShapedSlots(ptrs, d0, s0, lo, hi, Below(h)) && Unshared(m) && c !in m && Elements(m) <= use0
      requires FreedUpTo(c, p, h, s0, lo, d0, calls0, use0)
      modifies this`disk, this`inUse, this`calls, iData
      ensures FreedUpTo(c, p + 1, h, s0, lo, d0, calls0, use0) && iData[..] == old(iData[..])
      decreases h, 0, 2
    {
      hide Own, Sub, Shaped, Walk;
      var nr := disk[c][p];
      if nr != 0 {
        var s: seq<nat> := disk[c][p := 0];
        disk := disk[c := s];
        FreeSlotBranch(nr, c, p, h, s0, lo, hi, d0, calls0, use0);
      } else {
        OwnSkip(d0, s0, lo, p, Below(h));
      }
    }

    method FreeSlotBranch(nr: nat, c: nat, p: nat, h: nat, ghost s0: seq<nat>, ghost lo: nat, ghost hi: nat,
                          ghost d0: Disk, ghost calls0: seq<Call>, ghost use0: set<nat>)
      requires h >= 1 && lo <= p < hi <= |s0| && s0[p] == nr != 0
      requires ShapedSlots(ptrs, d0, s0, lo, hi, Below(h))
      requires var m := Own(d0, s0, lo, hi, Below(h)); Unshared(m) && c !in m && Elements(m) <= use0
      requires c in disk && Untouched(d0, disk, Own(d0, s0, lo, p, Below(h)), c)
      requires Freed(calls0, use0, calls, inUse, Own(d0, s0, lo, p, Below(h)))
      modifies this`disk, this`inUse, this`calls, iData
      ensures iData[..] == old(iData[..]) && c in disk && disk[c] == old(disk[c])
      ensures Untouched(d0, disk, Own(d0, s0, lo, p + 1, Below(h)), c)
      ensures Freed(calls0, use0, calls, inUse, Own(d0, s0, lo, p + 1, Below(h)))
      decreases h, 0, 1
    {
      hide Shaped, Walk;
      ghost var left, sub := Own(d0, s0, lo, p, Below(h)), Sub(d0, nr, h);
      NextSlot(ptrs, d0, disk, c, s0, lo, p, hi, Below(h));
      NextSlotInUse(left, sub, Own(d0, s0, lo, hi, Below(h)), use0, inUse);
      ghost var calls1, use1 := calls, inUse;
      FreeBranch(nr, h);
      SlotFreed(d0, old(disk), disk, left, sub, c, nr);
      FreedTwice(calls0, use0, calls1, use1, calls, inUse, left, sub);
    }

    /** Frees the branch under the detached pointer `nr`. */
    method FreeBranch(nr: nat, h: nat)
      requires nr != 0 && h >= 1 && Shaped(ptrs, disk, nr, h)
      requires Unshared(Sub(disk, nr, h)) && Elements(Sub(disk, nr, h)) <= inUse
      modifies this`disk, this`inUse, this`calls, iData
      ensures iData[..] == old(iData[..])
      ensures var m := Sub(old(disk), nr, h);
              Untouched(old(disk), disk, m, nr) && Freed(old(calls), old(inUse), calls, inUse, m)
      decreases h, 0, 0
    {
      hide Own, Sub, Shaped, Walk;
      ShapedBlock(ptrs, disk, nr, h);
      ghost var own, m := OwnAll(disk, disk[nr], Below(h - 1)), Sub(disk, nr, h);
      UnsharedPart(m, own, multiset{nr});
      FreeBranches(nr, 0, ptrs, h - 1);
      BlockFreed(old(disk), disk, nr, own, m);
      ghost var calls1, use1 := calls, inUse;
      RunOne(nr);
      FreeBlocks(nr, 1);
      OneFreed(calls1, use1, calls, inUse, nr);
      FreedTwice(old(calls), old(inUse), calls1, use1, calls, inUse, own, multiset{nr});
    }

    /** Follows `offsets` for `depth` pointers and collects them; it stops at an
        unset pointer, or with an error at a block in `bad`, which cannot be read. */
    method GetBranch(depth: nat, offsets: seq<nat>, bad: set<nat>) returns (keys: seq<nat>, err: Errno)
      requires Valid() && ValidPath(ptrs, offsets) && 1 <= depth <= |offsets|
      ensures IsChain(disk, iData[..], offsets, keys) && |keys| <= depth
      ensures err == OK ==> |keys| == depth || keys[|keys| - 1] == 0
      ensures err != OK ==> err == EIO && |keys| < depth && keys[|keys| - 1] in bad && keys[|keys| - 1] != 0
    {
      hide Own, Sub, Shaped, Walk;
      err := OK;
      var key := iData[offsets[0]];
      keys := [key];
      while |keys| < depth && key != 0
        invariant IsChain(disk, iData[..], offsets, keys) && |keys| <= depth && key == keys[|keys| - 1]
        decreases depth - |keys|
      {
        if key in bad {
          return keys, EIO;
        }
        NextKey(ptrs, disk, iData[..], offsets, keys);
        key := disk[key][offsets[|keys|]];
        keys := keys + [key];
      }
    }

    method AllZeroes(c: nat, end: nat) returns (zero: bool)
      requires c in disk && end <= |disk[c]|
      ensures zero <==> EmptyBefore(disk[c], end)
    {
      var p := 0;
      while p < end
        invariant p <= end && forall j :: 0 <= j < p ==> disk[c][j] == 0
      {
        if disk[c][p] != 0 {
          return false;
        }
        p := p + 1;
      }
      return true;
    }

    /** Finds the deepest node on the path that must survive a truncation: the node
        at level `partial` of `keys`.  Either the pointer on the path there is
        detached and returned as `top`, or the path ends in that node and `p`, the
        last slot to keep, moves one to the left. */
    method FindShared(path: seq<nat>) returns (keys: seq<nat>, partial: nat, p: nat, top: nat)
      requires Valid() && ValidPath(ptrs, path) && |path| >= 2
      modifies this`disk, iData
      ensures IsChain(old(disk), old(iData[..]), path, keys) && partial < |keys|
      ensures partial > 0 ==> !EmptyBefore(SlotsAt(partial, keys, old(disk), old(iData[..])), path[partial])
      ensures if p == path[partial] then
                && top == keys[partial] && partial + 1 < |path|
                && Barren(ptrs, old(disk), top, path[partial + 1..])
                && Punched(partial, keys, old(disk), old(iData[..]), disk, iData[..], path[partial])
              else
                && top == 0 && partial > 0 && p + 1 == path[partial]
                && disk == old(disk) && iData[..] == old(iData[..])
                && forall i :: partial < i < |path| ==> path[i] == 0
    {
      hide Own, Sub, Shaped, Walk;
      var k := StripZeros(path);
      var err;
      keys, err := GetBranch(k, path, {});
      partial := Climb(path, keys, k);
      if partial == k - 1 && partial > 0 {
        p, top := path[partial] - 1, 0;
      } else {
        p, top := path[partial], keys[partial];
        ChainSlot(ptrs, disk, iData[..], path, keys, partial);
        SetCell(if partial == 0 then InInode else InBlock(keys[partial - 1]), path[partial], 0);
      }
    }

    /** Drops the trailing zeros of the path, but not its first offset. */
    static method StripZeros(path: seq<nat>) returns (k: nat)
      requires |path| >= 1
      ensures 1 <= k <= |path| && (k > 1 ==> path[k - 1] != 0)
      ensures forall i :: k <= i < |path| ==> path[i] == 0
    {
      k := |path|;
      while k > 1 && path[k - 1] == 0
        invariant 1 <= k <= |path| && forall i :: k <= i < |path| ==> path[i] == 0
        decreases k
      {
        k := k - 1;
      }
    }

    /** Walks up from the last pointer of the chain while the blocks hold nothing
        before the path. */
    method Climb(path: seq<nat>, keys: seq<nat>, k: nat) returns (partial: nat)
      requires Valid() && ValidPath(ptrs, path)
      requires IsChain(disk, iData[..], path, keys) && |keys| <= k <= |path|
      requires |keys| == k || keys[|keys| - 1] == 0
      requires forall i :: k <= i < |path| ==> path[i] == 0
      ensures partial < |keys| && Barren(ptrs, disk, keys[partial], path[partial + 1..])
      ensures partial > 0 ==> !EmptyBefore(SlotsAt(partial, keys, disk, iData[..]), path[partial])
    {
      hide Own, Sub, Shaped;
      partial := |keys| - 1;
      if |keys| == k {
        BarrenZeros(ptrs, disk, keys[partial], path[partial + 1..]);
      }
      while partial > 0
        invariant partial < |keys| && Barren(ptrs, disk, keys[partial], path[partial + 1..])
        decreases partial
      {
        ChainSlot(ptrs, disk, iData[..], path, keys, partial);
        var empty := AllZeroes(keys[partial - 1], path[partial]);
        if !empty {
          return;
        }
        BarrenParent(ptrs, disk, iData[..], path, keys, partial);
        partial := partial - 1;
      }
    }

    /** The node at level `i` of the chain is trimmed at its slot on the path, and
        `freed` are the blocks freed for that. */
    ghost predicate LevelTrimmed(i: nat, keys: seq<nat>, path: seq<nat>, d0: Disk, root0: seq<nat>,
                                 calls0: seq<Call>, use0: set<nat>, freed: multiset<nat>)
      requires i <= |keys| && i <= |path|
      reads this, iData
    {
      && SlotTrimmed(ptrs, d0, SlotsAt(i, keys, d0, root0), disk, SlotsAt(i, keys, disk, iData[..]),
                     BlockAt(i, keys), path[i..], freed)
      && (i > 0 ==> iData[..] == root0)
      && Freed(calls0, use0, calls, inUse, freed)
    }

    /** Frees the branch that FindShared has detached. */
    method KillTop(top: nat, partial: nat, keys: seq<nat>, path: seq<nat>, ghost d0: Disk, ghost root0: seq<nat>)
      requires Spot(ptrs, d0, root0, path, keys, partial) && Elements(OwnAll(d0, root0, Inode)) <= inUse
      requires partial + 1 < |path| && top == keys[partial]
      requires Barren(ptrs, d0, top, path[partial + 1..])
      requires Punched(partial, keys, d0, root0, disk, iData[..], path[partial])
      modifies this`disk, this`inUse, this`calls, iData
      ensures LevelTrimmed(partial, keys, path, d0, root0, old(calls), old(inUse), Sub(d0, top, |path| - 1 - partial))
    {
      hide Own, Shaped, Walk;
      TopReady(ptrs, d0, root0, disk, iData[..], path, keys, partial, inUse);
      FreedNothing(calls, inUse);
      if top != 0 {
        FreeBranch(top, |path| - 1 - partial);
      }
      TopKilled(ptrs, d0, root0, old(disk), disk, iData[..], path, keys, partial);
    }

    /** Clears the end of the partially truncated block `c`, whose slot on the path
        is trimmed. */
    method ClearEnd(c: nat, ghost path: seq<nat>, p: nat, h: nat, ghost d0: Disk, ghost calls0: seq<Call>,
        ghost use0: set<nat>,
                    ghost freed: multiset<nat>)
      requires PathBlock(ptrs, d0, c, path) && Elements(Sub(d0, c, |path|)) <= use0
      requires h == |path| - 1 && p == path[0] && c in disk
      requires SlotTrimmed(ptrs, d0, d0[c], disk, disk[c], c, path, freed)
      requires Freed(calls0, use0, calls, inUse, freed)
      modifies this`disk, this`inUse, this`calls, iData
      ensures iData[..] == old(iData[..])
      ensures var f := freed + After(ptrs, d0, c, path);
              && Trimmed(ptrs, d0, c, disk, c, path, f)
              && Untouched(d0, disk, Sub(d0, c, |path|), c)
              && Freed(calls0, use0, calls, inUse, f)
    {
      hide Own, Sub, Walk;
      EndReady(ptrs, d0, disk, c, path, freed, use0, inUse);
      ghost var calls1, use1 := calls, inUse;
      FreeBranches(c, p + 1, ptrs, h);
      AfterFreed(ptrs, d0, old(disk), disk, c, path, freed);
      FreedTwice(calls0, use0, calls1, use1, calls, inUse, freed, After(ptrs, d0, c, path));
    }

    /** Clears the end of block `c` when the path ends there: the slot on the path,
        the one after `p`, goes too. */
    method ClearShifted(c: nat, ghost path: seq<nat>, p: nat, h: nat)
      requires PathBlock(ptrs, disk, c, path) && Elements(Sub(disk, c, |path|)) <= inUse
      requires h == |path| - 1 && p + 1 == path[0] && forall i :: 1 <= i < |path| ==> path[i] == 0
      modifies this`disk, this`inUse, this`calls, iData
      ensures iData[..] == old(iData[..])
      ensures var f := Own(old(disk), old(disk)[c], p + 1, ptrs, Below(h));
              && Trimmed(ptrs, old(disk), c, disk, c, path, f)
              && Untouched(old(disk), disk, Sub(old(disk), c, |path|), c)
              && Freed(old(calls), old(inUse), calls, inUse, f)
    {
      hide Own, Sub, Walk;
      ShiftedFreeable(ptrs, disk, c, path, inUse);
      FreeBranches(c, p + 1, ptrs, h);
      ShiftedFreed(ptrs, old(disk), disk, c, path);
    }

    /** Truncates along a path that goes through an indirect block: afterwards the
        inode's slot on the path is trimmed. */
    method TruncateShared(path: seq<nat>) returns (ghost freed: multiset<nat>)
      requires Valid() && ValidPath(ptrs, path) && |path| >= 2
      modifies this`disk, this`inUse, this`calls, iData
      ensures SlotTrimmed(ptrs, old(disk), old(iData[..]), disk, iData[..], 0, path, freed)
      ensures Freed(old(calls), old(inUse), calls, inUse, freed)
    {
      hide Own, Sub, Shaped, Walk;
      ghost var d0, root0, calls0, use0 := disk, iData[..], calls, inUse;
      var keys, partial, p, top := FindShared(path);
      ChainSpot(ptrs, d0, root0, path, keys, partial);
      if p == path[partial] {
        KillTop(top, partial, keys, path, d0, root0);
        freed := Sub(d0, top, |path| - 1 - partial);
      } else {
        freed := multiset{};
      }
      while partial > 0
        invariant partial < |keys| && IsChain(d0, root0, path, keys)
        invariant if p == path[partial] then LevelTrimmed(partial, keys, path, d0, root0, calls0, use0, freed)
                  else partial > 0 && Shifted(partial, p, path, d0, root0, calls0, use0)
        decreases partial
      {
        ChainReady(ptrs, d0, root0, path, keys, partial, use0);
        freed := ClearLevel(partial, p, keys, path, d0, root0, calls0, use0, freed);
        partial := partial - 1;
        p := path[partial];
      }
      assert path[0..] == path;
    }

    /** Nothing has changed yet: `p` is the slot before the last nonzero offset. */
    ghost predicate Shifted(partial: nat, p: nat, path: seq<nat>, d0: Disk, root0: seq<nat>, calls0: seq<Call>,
        use0: set<nat>)
      reads this, iData
    {
      && partial < |path| && p + 1 == path[partial] && (forall i :: partial < i < |path| ==> path[i] == 0)
      && disk == d0 && iData[..] == root0 && calls == calls0 && inUse == use0
    }

    /** One round of the loop that clears the ends of the blocks on the path. */
    method ClearLevel(partial: nat, p: nat, keys: seq<nat>, path: seq<nat>, ghost d0: Disk, ghost root0: seq<nat>,
                      ghost calls0: seq<Call>, ghost use0: set<nat>, ghost freed: multiset<nat>)
      returns (ghost freed': multiset<nat>)
      requires LevelReady(ptrs, d0, root0, path, keys, partial, use0) && partial < |keys|
      requires if p == path[partial] then LevelTrimmed(partial, keys, path, d0, root0, calls0, use0, freed)
               else Shifted(partial, p, path, d0, root0, calls0, use0)
      modifies this`disk, this`inUse, this`calls, iData
      ensures LevelTrimmed(partial - 1, keys, path, d0, root0, calls0, use0, freed')
    {
      hide Own, Sub, Walk, Unshared, Trimmed, Freed;
      ghost var c, tail := keys[partial - 1], path[partial..];
      assert tail[0] == path[partial] && |tail| == |path| - partial;
      if p == path[partial] {
        freed' := freed + After(ptrs, d0, c, tail);
        ClearEnd(keys[partial - 1], tail, p, |path| - 1 - partial, d0, calls0, use0, freed);
      } else {
        freed' := Own(d0, d0[c], p + 1, ptrs, Below(|path| - 1 - partial));
        ClearShifted(keys[partial - 1], tail, p, |path| - 1 - partial);
      }
      LevelUp(ptrs, d0, root0, disk, path, keys, partial, freed');
    }

    /** The inode's slots after the path are cleared up to `j`. */
    ghost predicate InodeTrimmed(path: seq<nat>, j: nat, d0: Disk, root0: seq<nat>, calls0: seq<Call>, use0: set<nat>,
        freed: multiset<nat>)
      reads this, iData
    {
      && |path| >= 1 && |path| - 1 == Height(path[0])
      && RootTrimmed(ptrs, d0, root0, disk, iData[..], path, j, freed)
      && Freed(calls0, use0, calls, inUse, Gone(d0, root0, path[0], j, freed))
    }

    /** Detaches the branch in inode slot `j` and frees it. */
    method KillBranch(j: nat)
      requires NDIR <= j < iData.Length && iData[j] != 0 && Shaped(ptrs, disk, iData[j], Height(j))
      requires Unshared(Sub(disk, iData[j], Height(j))) && Elements(Sub(disk, iData[j], Height(j))) <= inUse
      modifies this`disk, this`inUse, this`calls, iData
      ensures iData[..] == old(iData[..])[j := 0]
      ensures var nr, m := old(iData[j]), Sub(old(disk), old(iData[j]), Height(j));
              Untouched(old(disk), disk, m, nr) && Freed(old(calls), old(inUse), calls, inUse, m)
    {
      hide Own, Sub, Shaped, Walk;
      var nr := iData[j];
      iData[j] := 0;
      FreeBranch(nr, Height(j));
    }

    /** Frees the whole subtree in inode slot `j`. */
    method KillSlot(j: nat, ghost path: seq<nat>, ghost d0: Disk, ghost root0: seq<nat>,
                    ghost calls0: seq<Call>, ghost use0: set<nat>, ghost freed: multiset<nat>)
      requires Tree(ptrs, d0, root0) && Elements(OwnAll(d0, root0, Inode)) <= use0
      requires NDIR <= j < iData.Length && InodeTrimmed(path, j, d0, root0, calls0, use0, freed)
      modifies this`disk, this`inUse, this`calls, iData
      ensures InodeTrimmed(path, j + 1, d0, root0, calls0, use0, freed)
    {
      hide Own, Sub, Shaped, Walk;
      ghost var d, root, calls1, use1 := disk, iData[..], calls, inUse;
      RootReady(ptrs, d0, root0, disk, root, path, j, freed, use0, inUse);
      if iData[j] != 0 {
        KillBranch(j);
        RootKilled(ptrs, d0, root0, d, root, disk, path, j, freed, calls0, use0, calls1, use1, calls, inUse);
      } else {
        RootSkipped(ptrs, d0, root0, disk, root, path, j, freed, calls0, use0, calls, inUse);
      }
    }

    /** The direct slots from `o` on. */
    method TruncateDirect(o: nat) returns (ghost freed: multiset<nat>)
      requires Valid() && o < NDIR
      modifies this`disk, this`inUse, this`calls, iData
      ensures InodeTrimmed([o], NDIR, old(disk), old(iData[..]), old(calls), old(inUse), freed)
    {
      hide Own, Sub, Shaped, Walk;
      ghost var root0, calls0, use0 := iData[..], calls, inUse;
      DirectFreeable(ptrs, disk, root0, o, NDIR);
      FreeData(InInode, o, NDIR);
      DirectFreed(ptrs, disk, root0, iData[..], o, NDIR, calls0, use0, calls, inUse);
      freed := Sub(disk, root0[o], SlotHeight(Inode, o));
    }

    /** Frees the subtrees in the indirect slots after the path; the cases of the
        switch fall through from the first such slot to the last. */
    method KillRest(j0: nat, path: seq<nat>, ghost d0: Disk, ghost root0: seq<nat>,
                    ghost calls0: seq<Call>, ghost use0: set<nat>, ghost freed: multiset<nat>)
      requires Tree(ptrs, d0, root0) && Elements(OwnAll(d0, root0, Inode)) <= use0
      requires NDIR <= j0 <= iData.Length && InodeTrimmed(path, j0, d0, root0, calls0, use0, freed)
      modifies this`disk, this`inUse, this`calls, iData
      ensures InodeTrimmed(path, iData.Length, d0, root0, calls0, use0, freed)
    {
      hide Own, Sub, Shaped, Walk, InodeTrimmed, OwnAll, Tree;
      var j := j0;
      while j < iData.Length
        invariant NDIR <= j <= iData.Length && InodeTrimmed(path, j, d0, root0, calls0, use0, freed)
      {
        KillSlot(j, path, d0, root0, calls0, use0, freed);
        j := j + 1;
      }
    }

    /** Cuts the tree along `path`. */
    method TruncatePath(path: seq<nat>) returns (ghost freed: multiset<nat>)
      requires Valid() && ValidPath(ptrs, path)
      modifies this`disk, this`inUse, this`calls, iData
      ensures InodeTrimmed(path, iData.Length, old(disk), old(iData[..]), old(calls), old(inUse), freed)
    {
      hide Own, Sub, Shaped, Walk, Unshared, Trimmed, Freed, Gone;
      ghost var d0, root0, calls0, use0 := disk, iData[..], calls, inUse;
      var j;
      if |path| == 1 {
        freed := TruncateDirect(path[0]);
        assert path == [path[0]];
        j := NDIR;
      } else {
        freed := TruncateShared(path);
        RootStart(ptrs, d0, root0, disk, iData[..], path, freed);
        j := path[0] + 1;
      }
      KillRest(j, path, d0, root0, calls0, use0, freed);
    }

    method TruncateAt(cut: nat)
      requires Valid() && cut < Limit(ptrs)
      modifies this`disk, this`inUse, this`calls, iData
      ensures Valid() && Truncated(old(Now()), Now(), cut)
    {
      hide Own, Sub, Shaped, Walk;
      ghost var d0, root0, calls0, use0 := disk, iData[..], calls, inUse;
      BlockRoundTrip(ptrs, cut);
      var path := BlockToPath(ptrs, cut).offsets;
      ghost var freed := TruncatePath(path);
      TruncateDone(ptrs, d0, root0, disk, iData[..], cut, freed, calls0, use0, calls, inUse);
    }

    /** Frees everything from byte `offset` on, rounded up to a block.  An offset
        that no path reaches changes nothing. */
    method TruncateBlocks(offset: int, blockSize: nat)
      requires Valid() && blockSize > 0
      modifies this`disk, this`inUse, this`calls, iData
      ensures Valid()
      ensures var cut := (offset + blockSize - 1) / blockSize;
              if 0 <= cut < Limit(ptrs) then Truncated(old(Now()), Now(), cut) else Now() == old(Now())
    {
      hide Own, Sub, Shaped, Walk;
      var cut := (offset + blockSize - 1) / blockSize;
      NoPath(ptrs, cut);
      if BlockToPath(ptrs, cut).offsets != [] {
        TruncateAt(cut);
      }
    }
  }
}

/** What holds over any sequence of lookups, allocations and truncations of a file (io_uring/inode.c). */
module Ext2Run {
  import opened Ext2Tree
  import opened Ext2Free
  import opened Ext2Trunc
  import opened Ext2
  import opened Ext2Alloc
  import opened Ext2Lookup

  /** No block is lost: those handed out are those given back and those of the tree. */
  ghost predicate Settled(v: Volume) {
    multiset(Expand(v.grants)) == multiset(Expand(v.calls)) + OwnAll(v.disk, v.root, Inode)
  }

  /** A call of ext2_get_blocks, with what it is asked and what it answers, or a truncation. */
  datatype Op = Get(iblock: nat, maxblocks: nat, create: bool, bad: set<nat>,
                    err: Errno, count: nat, bno: nat, isNew: bool)
              | Cut(cut: nat)

  /** What a call does to the file; `at` is what others make of the tree while a lookup runs without the mutex. */
  ghost predicate Step(v: Volume, op: Op, at: Moments, v': Volume) {
    match op
    case Get(iblock, maxblocks, create, bad, err, count, bno, isNew) =>
      Raced(v, v', at, iblock, maxblocks, create, bad, err, count, bno, isNew)
    case Cut(cut) => Truncated(v, v', cut)
  }

  /** A file without blocks. */
  ghost predicate Fresh(v: Volume) {
    Good(v) && v.calls == [] && v.grants == [] && OwnAll(v.disk, v.root, Inode) == multiset{}
  }

  ghost predicate IsRun(vs: seq<Volume>, ops: seq<Op>, ats: seq<Moments>) {
    && |vs| == |ops| + 1 && |ats| == |ops| && Fresh(vs[0])
    && forall i :: 0 <= i < |ops| ==> Step(vs[i], ops[i], ats[i], vs[i + 1])
  }

  lemma GetSettles(v: Volume, v': Volume, iblock: nat, maxblocks: nat, err: Errno, count: nat, bno: nat, isNew: bool)
    requires Settled(v) && Answered(v, v', iblock, maxblocks, err, count, bno, isNew)
    ensures Settled(v')
  {
    hide Own, Sub, Shaped, Walk, OwnAll, Mapping, Consecutive, NewlyMapped, Tree;
    if isNew {
      var all, all' := OwnAll(v.disk, v.root, Inode), OwnAll(v'.disk, v'.root, Inode);
      assert all' == all + (all' - all);
    } else if err != OK {
      Balance(multiset(Expand(v.grants)), multiset(Expand(v.calls)), multiset(Expand(v'.grants)),
          multiset(Expand(v'.calls)),
              OwnAll(v.disk, v.root, Inode));
    }
  }

  lemma Balance(g: multiset<nat>, c: multiset<nat>, g': multiset<nat>, c': multiset<nat>, all: multiset<nat>)
    requires g == c + all && g' + c == g + c'
    ensures g' == c' + all
  {
    forall b ensures g'[b] == (c' + all)[b] {
      assert (g' + c)[b] == (g + c')[b];
    }
  }

  lemma CutSettles(v: Volume, v': Volume, cut: nat)
    requires Settled(v) && Truncated(v, v', cut)
    ensures Settled(v')
  {
    hide Own, Sub, Shaped, Walk, OwnAll, CutAt, Tree;
    var all, kept := OwnAll(v.disk, v.root, Inode), OwnAll(v'.disk, v'.root, Inode);
    assert all == kept + (all - kept);
  }

  /** In every run, the blocks that the file system has handed out are those that were freed and those that the tree
      owns, each as often: none is lost, and a block is in the tree exactly if it was handed out once more than it
      was freed. */
  lemma {:induction false} NoLeak(vs: seq<Volume>, ops: seq<Op>, ats: seq<Moments>, n: nat)
    requires IsRun(vs, ops, ats) && n < |vs|
    ensures Settled(vs[n])
  {
    hide OwnAll, Answered, Truncated, Settled, FreeAnswer;
    if n == 0 {
      FreshSettled(vs[0]);
    } else {
      NoLeak(vs, ops, ats, n - 1);
      assert Step(vs[n - 1], ops[n - 1], ats[n - 1], vs[n]);
      match ops[n - 1]
      case Get(iblock, maxblocks, create, bad, err, count, bno, isNew) =>
        if vs[n] != vs[n - 1] {
          GetSettles(vs[n - 1], vs[n], iblock, maxblocks, err, count, bno, isNew);
        }
      case Cut(cut) => CutSettles(vs[n - 1], vs[n], cut);
    }
  }

  lemma FreshSettled(v: Volume)
    requires Fresh(v)
    ensures Settled(v)
  {
  }
}

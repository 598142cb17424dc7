/** Allocating lookup in the ext2 block map (io_uring/inode.c): taking blocks from
    the file system, building a detached branch, and splicing it onto the tree. */
module Ext2Alloc {
  import opened Ext2Path
  import opened Ext2Tree
  import opened Ext2Free
  import opened Ext2Trunc
  import opened Ext2Graft
  import opened Ext2

  /** Between two states the file system handed out the new blocks `taken`. */
  ghost predicate Took(grants0: seq<Call>, use0: set<nat>, grants1: seq<Call>, use1: set<nat>, taken: multiset<nat>) {
    && multiset(Expand(grants1)) == multiset(Expand(grants0)) + taken
    && use1 == use0 + Elements(taken) && Elements(taken) !! use0
    && Unshared(taken) && 0 !in taken
  }

  /** Between two states every block that was taken was also freed. */
  ghost predicate Returned(grants0: seq<Call>, calls0: seq<Call>, grants1: seq<Call>, calls1: seq<Call>) {
    multiset(Expand(grants1)) + multiset(Expand(calls0)) == multiset(Expand(grants0)) + multiset(Expand(calls1))
  }

  lemma TookMore(g0: seq<Call>, u0: set<nat>, g1: seq<Call>, u1: set<nat>, g2: seq<Call>, u2: set<nat>,
      a: multiset<nat>, b: multiset<nat>)
    requires Took(g0, u0, g1, u1, a) && Took(g1, u1, g2, u2, b)
    ensures Took(g0, u0, g2, u2, a + b)
  {
    assert Elements(a + b) == Elements(a) + Elements(b);
    forall x | x in a + b ensures (a + b)[x] == 1 {
      assert x in Elements(a) || x in Elements(b);
      assert x in a && x in b ==> x in Elements(a) && x in Elements(b);
    }
  }

  lemma GivenBack(g0: seq<Call>, u0: set<nat>, g1: seq<Call>, u1: set<nat>, c0: seq<Call>, c1: seq<Call>, u2: set<nat>,
      taken: multiset<nat>)
    requires Took(g0, u0, g1, u1, taken) && Freed(c0, u1, c1, u2, taken)
    ensures u2 == u0 && Returned(g0, c0, g1, c1)
  {
    hide Own, Sub, Shaped, Walk;
  }

  lemma {:induction false} Above(use: set<nat>) returns (x: nat)
    ensures x > 0 && forall b :: b in use ==> b < x
    decreases |use|
  {
    if use == {} {
      x := 1;
    } else {
      var y :| y in use;
      x := Above(use - {y});
      x := if x > y then x else y + 1;
      forall b | b in use ensures b < x {
        assert b == y || b in use - {y};
      }
    }
  }

  predicate Fresh(use: set<nat>, start: nat, count: nat) {
    start > 0 && forall b :: b in use ==> !(start <= b < start + count)
  }

  lemma RunTaken(g: seq<Call>, use: set<nat>, start: nat, count: nat)
    requires Fresh(use, start, count)
    ensures Took(g, use, g + [Call(start, count)], use + set b | b in Run(start, count), multiset(Run(start, count)))
  {
    hide Own, Sub, Shaped, Walk;
    var r := Run(start, count);
    ExpandOne(g, Call(start, count));
    assert Elements(multiset(r)) == set b | b in r;
    RunUnshared(start, count);
  }

  lemma {:induction false} RunUnshared(start: nat, count: nat)
    ensures Unshared(multiset(Run(start, count)))
    decreases count
  {
    hide Own, Sub, Shaped, Walk;
    if count > 0 {
      RunUnshared(start, count - 1);
      assert Run(start, count) == Run(start, count - 1) + [start + (count - 1)];
      assert start + (count - 1) !in Run(start, count - 1);
    }
  }

  /** Stands for ext2_new_blocks: an error, or a run of at least one and at most
      `want` blocks that were not in use. */
  method NewBlocks(m: BlockMap, want: nat) returns (start: nat, count: nat, err: Errno)
    requires want >= 1
    modifies m`inUse, m`grants
    ensures err != OK ==> unchanged(m)
    ensures err == OK ==> 1 <= count <= want
    ensures err == OK ==> Took(old(m.grants), old(m.inUse), m.grants, m.inUse, multiset(Run(start, count)))
  {
    hide Own, Sub, Shaped, Walk;
    start, count := 0, 0;
    if * {
      err := ENOSPC;
    } else {
      err := OK;
      count :| 1 <= count <= want;
      ghost var x := Above(m.inUse);
      assert Fresh(m.inUse, x, count);
      start :| Fresh(m.inUse, start, count);
      Grant(m, start, count);
    }
  }

  method Grant(m: BlockMap, start: nat, count: nat)
    requires Fresh(m.inUse, start, count)
    modifies m`inUse, m`grants
    ensures Took(old(m.grants), old(m.inUse), m.grants, m.inUse, multiset(Run(start, count)))
  {
    hide Own, Sub, Shaped, Walk;
    RunTaken(m.grants, m.inUse, start, count);
    m.grants := m.grants + [Call(start, count)];
    m.inUse := m.inUse + set b | b in Run(start, count);
  }

  // ----- ext2_alloc_blocks -----

  /** Moves blocks from the run at `cur` to `nb` until `nb` has `ind` blocks or the
      run is used up. */
  method MoveBlocks(nb: seq<nat>, cur: nat, count: nat, ind: nat) returns (nb': seq<nat>, cur': nat, count': nat)
    requires |nb| <= ind
    ensures count' <= count && cur' == cur + (count - count') && nb' == nb + Run(cur, count - count')
    ensures |nb'| <= ind && (count' > 0 ==> |nb'| == ind)
  {
    hide Own, Sub, Shaped, Walk;
    nb', cur', count' := nb, cur, count;
    while |nb'| < ind && count' > 0
      invariant count' <= count && cur' == cur + (count - count') && nb' == nb + Run(cur, count - count')
      invariant |nb'| <= ind
      decreases count'
    {
      assert Run(cur, count - count' + 1) == Run(cur, count - count') + [cur'];
      nb', cur', count' := nb' + [cur'], cur' + 1, count' - 1;
    }
  }

  lemma FirstOf(s: seq<nat>, lo: nat, hi: nat)
    requires lo < hi <= |s|
    ensures multiset(s[lo..hi]) == multiset{s[lo]} + multiset(s[lo + 1..hi])
  {
    assert s[lo..hi] == [s[lo]] + s[lo + 1..hi];
  }

  lemma {:induction false} TakenAll(nb: seq<nat>, j: nat, num: nat)
    requires j < |nb|
    ensures Taken(nb, j, num) == multiset(nb[j..|nb| - 1]) + multiset(Run(nb[|nb| - 1], num))
    decreases |nb| - j
  {
    hide Own, Sub, Shaped, Walk;
    if j < |nb| - 1 {
      hide Run;
      TakenAll(nb, j + 1, num);
      FirstOf(nb, j, |nb| - 1);
      var rest, run := multiset(nb[j + 1..|nb| - 1]), multiset(Run(nb[|nb| - 1], num));
      SumAssoc(multiset{nb[j]}, rest, run);
    }
  }

  /** Frees the blocks of `nb` one by one. */
  method FreeEach(m: BlockMap, nb: seq<nat>)
    requires Unshared(multiset(nb)) && Elements(multiset(nb)) <= m.inUse
    modifies m`inUse, m`calls
    ensures Freed(old(m.calls), old(m.inUse), m.calls, m.inUse, multiset(nb))
  {
    hide Own, Sub, Shaped, Walk;
    var i := 0;
    FreedNothing(m.calls, m.inUse);
    assert nb[..0] == [];
    while i < |nb|
      invariant i <= |nb| && Freed(old(m.calls), old(m.inUse), m.calls, m.inUse, multiset(nb[..i]))
    {
      ghost var calls1, use1 := m.calls, m.inUse;
      NextOfEach(nb, i, old(m.inUse), m.inUse);
      RunOne(nb[i]);
      m.FreeBlocks(nb[i], 1);
      OneFreed(calls1, use1, m.calls, m.inUse, nb[i]);
      FreedTwice(old(m.calls), old(m.inUse), calls1, use1, m.calls, m.inUse, multiset(nb[..i]), multiset{nb[i]});
      i := i + 1;
    }
    assert nb[..i] == nb;
  }

  lemma NextOfEach(nb: seq<nat>, i: nat, use0: set<nat>, use: set<nat>)
    requires i < |nb| && Unshared(multiset(nb)) && Elements(multiset(nb)) <= use0
        && use == use0 - Elements(multiset(nb[..i]))
    ensures nb[i] in use && multiset(nb[..i + 1]) == multiset(nb[..i]) + multiset{nb[i]}
  {
    assert nb == nb[..i] + [nb[i]] + nb[i + 1..];
    assert multiset(nb) == multiset(nb[..i]) + multiset{nb[i]} + multiset(nb[i + 1..]);
    assert nb[i] in multiset(nb);
    assert nb[..i + 1] == nb[..i] + [nb[i]];
  }

  /** Takes `ind` blocks for indirect blocks and between one and `blks` consecutive
      ones for data.  When the file system runs out, all blocks taken so far are
      freed again. */
  method AllocBlocks(m: BlockMap, ind: nat, blks: nat) returns (nb: seq<nat>, num: nat, err: Errno)
    requires blks >= 1
    modifies m`inUse, m`calls, m`grants
    ensures err == OK ==> |nb| == ind + 1 && 1 <= num <= blks && m.calls == old(m.calls)
    ensures err == OK ==> Took(old(m.grants), old(m.inUse), m.grants, m.inUse, Branch(nb, num))
    ensures err != OK ==> m.inUse == old(m.inUse) && Returned(old(m.grants), old(m.calls), m.grants, m.calls)
  {
    hide Own, Sub, Shaped, Walk;
    var target, cur, count := blks + ind, 0, 0;
    nb, num, err := [], 0, OK;
    ghost var g0, u0 := m.grants, m.inUse;
    while true
      invariant |nb| <= ind && target == blks + ind - |nb| && m.calls == old(m.calls)
      invariant Took(g0, u0, m.grants, m.inUse, multiset(nb))
      decreases ind - |nb|
    {
      ghost var g1, u1 := m.grants, m.inUse;
      cur, count, err := NewBlocks(m, target);
      if err != OK {
        break;
      }
      ghost var start, all, nb1 := cur, count, nb;
      target := target - count;
      nb, cur, count := MoveBlocks(nb, cur, count, ind);
      TookRun(g0, u0, g1, u1, m.grants, m.inUse, nb1, nb, start, all, cur, count);
      if count > 0 {
        break;
      }
    }
    if err == OK {
      BranchTaken(g0, u0, m.grants, m.inUse, nb, cur, count);
      nb, num := nb + [cur], count;
    } else {
      FreeEach(m, nb);
      GivenBack(g0, u0, m.grants, u0 + Elements(multiset(nb)), old(m.calls), m.calls, m.inUse, multiset(nb));
    }
  }

  lemma BranchTaken(g0: seq<Call>, u0: set<nat>, g: seq<Call>, u: set<nat>, nb: seq<nat>, cur: nat, num: nat)
    requires Took(g0, u0, g, u, multiset(nb) + multiset(Run(cur, num)))
    ensures Took(g0, u0, g, u, Branch(nb + [cur], num))
  {
    TakenAll(nb + [cur], 0, num);
    assert (nb + [cur])[0..|nb|] == nb;
  }

  /** A run was granted and its first blocks moved to `nb`. */
  lemma TookRun(g0: seq<Call>, u0: set<nat>, g1: seq<Call>, u1: set<nat>, g2: seq<Call>, u2: set<nat>,
                nb1: seq<nat>, nb: seq<nat>, start: nat, all: nat, cur: nat, count: nat)
    requires Took(g0, u0, g1, u1, multiset(nb1)) && Took(g1, u1, g2, u2, multiset(Run(start, all)))
    requires count <= all && nb == nb1 + Run(start, all - count) && cur == start + (all - count)
    ensures Took(g0, u0, g2, u2, multiset(nb) + multiset(Run(cur, count)))
    ensures count == 0 ==> Took(g0, u0, g2, u2, multiset(nb))
  {
    RunParts(nb1, nb, start, all, cur, count);
    TookMore(g0, u0, g1, u1, g2, u2, multiset(nb1), multiset(Run(start, all)));
  }

  lemma RunParts(nb1: seq<nat>, nb: seq<nat>, start: nat, all: nat, cur: nat, count: nat)
    requires count <= all && nb == nb1 + Run(start, all - count) && cur == start + (all - count)
    ensures multiset(nb) + multiset(Run(cur, count)) == multiset(nb1) + multiset(Run(start, all))
    ensures count == 0 ==> multiset(nb) == multiset(nb1) + multiset(Run(start, all))
  {
    assert Run(start, all) == Run(start, all - count) + Run(cur, count);
  }

  // ----- ext2_alloc_branch -----

  /** The blocks that were in use before are as they were. */
  ghost predicate SameIn(d0: Disk, d1: Disk, use: set<nat>) {
    forall b :: b in use && b in d0 ==> b in d1 && d1[b] == d0[b]
  }

  /** The indirect blocks of a new branch are distinct, new and nonzero. */
  lemma TakenBlocks(nb: seq<nat>, num: nat, g0: seq<Call>, u0: set<nat>, g1: seq<Call>, u1: set<nat>)
    requires |nb| >= 1 && num >= 1 && Took(g0, u0, g1, u1, Branch(nb, num))
    ensures forall i :: 0 <= i < |nb| ==> nb[i] !in u0 && nb[i] != 0 && nb[i] in u1
    ensures forall i, k :: 0 <= i < k < |nb| - 1 ==> nb[i] != nb[k]
  {
    hide Own, Sub, Shaped, Walk;
    var taken, data, meta := Branch(nb, num), multiset(Run(nb[|nb| - 1], num)), nb[..|nb| - 1];
    TakenAll(nb, 0, num);
    assert nb[0..|nb| - 1] == meta;
    assert nb[|nb| - 1] == Run(nb[|nb| - 1], num)[0];
    forall i | 0 <= i < |nb| ensures nb[i] in Elements(taken) {
      if i < |nb| - 1 {
        assert nb[i] == meta[i];
        assert nb[i] in multiset(meta);
      }
    }
    UnsharedPart(taken, multiset(meta), data);
    forall i, k | 0 <= i < k < |nb| - 1 ensures nb[i] != nb[k] {
      Distinct(meta, i, k);
    }
  }

  lemma Distinct(s: seq<nat>, i: nat, k: nat)
    requires Unshared(multiset(s)) && i < k < |s|
    ensures s[i] != s[k]
  {
    assert s == s[..k] + [s[k]] + s[k + 1..];
    assert multiset(s) == multiset(s[..k]) + multiset{s[k]} + multiset(s[k + 1..]);
    assert s[i] in s[..k];
    assert s[k] in multiset(s);
  }

  /** `s` with `num` consecutive block numbers from `bno` on written at slot `o`. */
  method SetRun(s: seq<nat>, o: nat, num: nat, bno: nat) returns (r: seq<nat>)
    requires o + num <= |s|
    ensures r == Filled(s, o, num, bno)
  {
    hide Own, Sub, Shaped, Walk;
    r := s;
    var i := 0;
    while i < num
      invariant i <= num && r == Filled(s, o, i, bno)
    {
      r := r[o + i := bno + i];
      i := i + 1;
    }
  }

  /** How the blocks and offsets of a branch that is to be built fit together. */
  ghost predicate BranchFits(ptrs: nat, ind: nat, blks: nat, tail: seq<nat>) {
    && |tail| == ind + 1 && (forall n :: 1 <= n <= ind ==> tail[n] < ptrs)
    && (ind > 0 ==> tail[ind] + blks <= ptrs)
  }

  /** Takes the blocks of a new branch and links them; nothing is attached to the
      tree yet.  If there is no buffer for one of the indirect blocks, all blocks
      taken are freed again. */
  method AllocBranch(m: BlockMap, ind: nat, blks: nat, tail: seq<nat>, noBuf: set<nat>)
    returns (nb: seq<nat>, num: nat, err: Errno, ghost z: seq<nat>)
    requires blks >= 1 && BranchFits(m.ptrs, ind, blks, tail)
    modifies m`disk, m`inUse, m`calls, m`grants
    ensures SameIn(old(m.disk), m.disk, old(m.inUse))
    ensures err == OK ==> |nb| == ind + 1 && 1 <= num <= blks && m.calls == old(m.calls)
    ensures err == OK ==> Took(old(m.grants), old(m.inUse), m.grants, m.inUse, Branch(nb, num))
    ensures err == OK ==> Blank(m.ptrs, z) && forall i :: 0 <= i < ind ==> LinkedAt(m.disk, z, nb, tail, num, i)
    ensures err != OK ==> m.inUse == old(m.inUse) && Returned(old(m.grants), old(m.calls), m.grants, m.calls)
  {
    hide Own, Sub, Shaped, Walk;
    var blank: seq<nat> := seq(m.ptrs, _ => 0);
    z := blank;
    nb, num, err := AllocBlocks(m, ind, blks);
    if err != OK {
      return;
    }
    TakenBlocks(nb, num, old(m.grants), old(m.inUse), m.grants, m.inUse);
    var ok := LinkBlocks(m, blank, nb, tail, num, noBuf, old(m.inUse));
    if !ok {
      FreeBranchBlocks(m, nb, num, old(m.grants), old(m.inUse));
      err := ENOMEM;
    }
  }

  /** Links the indirect blocks from the top down, until a buffer is missing. */
  method LinkBlocks(m: BlockMap, blank: seq<nat>, nb: seq<nat>, tail: seq<nat>, num: nat, noBuf: set<nat>,
      ghost u0: set<nat>)
    returns (ok: bool)
    requires |nb| >= 1 && num >= 1 && BranchFits(|blank|, |nb| - 1, num, tail)
    requires forall i :: 0 <= i < |nb| ==> nb[i] !in u0 && nb[i] != 0
    requires forall i, k :: 0 <= i < k < |nb| - 1 ==> nb[i] != nb[k]
    modifies m`disk
    ensures SameIn(old(m.disk), m.disk, u0)
    ensures ok ==> forall i :: 0 <= i < |nb| - 1 ==> LinkedAt(m.disk, blank, nb, tail, num, i)
  {
    hide Own, Sub, Shaped, Walk;
    var n := 0;
    while n < |nb| - 1
      invariant n <= |nb| - 1 && SameIn(old(m.disk), m.disk, u0)
      invariant forall i :: 0 <= i < n ==> LinkedAt(m.disk, blank, nb, tail, num, i)
    {
      if nb[n] in noBuf {
        return false;
      }
      ghost var d1 := m.disk;
      LinkBlock(m, blank, nb, tail, num, n);
      forall i | 0 <= i < n ensures LinkedAt(m.disk, blank, nb, tail, num, i) {
        assert LinkedAt(d1, blank, nb, tail, num, i) && nb[i] != nb[n];
      }
      n := n + 1;
    }
    return true;
  }

  /** Block `n` of the new branch: cleared, then the pointer to the next block or
      the data pointers. */
  method LinkBlock(m: BlockMap, blank: seq<nat>, nb: seq<nat>, tail: seq<nat>, num: nat, n: nat)
    requires n + 1 < |nb| == |tail| && nb[n] != 0 && num >= 1
    requires tail[n + 1] < |blank| && (n + 2 == |nb| ==> tail[n + 1] + num <= |blank|)
    modifies m`disk
    ensures LinkedAt(m.disk, blank, nb, tail, num, n)
    ensures forall b :: b in old(m.disk) && b != nb[n] ==> b in m.disk && m.disk[b] == old(m.disk)[b]
  {
    var s := SetRun(blank, tail[n + 1], if n + 2 == |nb| then num else 1, nb[n + 1]);
    m.disk := m.disk[nb[n] := s];
  }

  method FreeBranchBlocks(m: BlockMap, nb: seq<nat>, num: nat, ghost g0: seq<Call>, ghost u0: set<nat>)
    requires |nb| >= 1 && num >= 1 && Took(g0, u0, m.grants, m.inUse, Branch(nb, num))
    modifies m`inUse, m`calls
    ensures m.inUse == u0 && Returned(g0, old(m.calls), m.grants, m.calls)
  {
    hide Own, Sub, Shaped, Walk;
    ghost var meta, last, c0, u1 := nb[..|nb| - 1], nb[|nb| - 1], m.calls, m.inUse;
    BranchParts(nb, num, m.inUse);
    FreeEach(m, nb[..|nb| - 1]);
    ghost var c1, u2 := m.calls, m.inUse;
    m.FreeBlocks(nb[|nb| - 1], num);
    RunFreed(c1, u2, m.calls, m.inUse, last, num);
    FreedTwice(c0, u1, c1, u2, m.calls, m.inUse, multiset(meta), multiset(Run(last, num)));
    GivenBack(g0, u0, m.grants, u1, c0, m.calls, m.inUse, Branch(nb, num));
  }

  lemma BranchParts(nb: seq<nat>, num: nat, use: set<nat>)
    requires |nb| >= 1 && Unshared(Branch(nb, num)) && Elements(Branch(nb, num)) <= use
    ensures var meta, run := multiset(nb[..|nb| - 1]), Run(nb[|nb| - 1], num);
            && Branch(nb, num) == meta + multiset(run)
            && Unshared(meta) && Elements(meta) <= use
            && forall b :: b in run ==> b in use - Elements(meta)
  {
    var meta, run := multiset(nb[..|nb| - 1]), Run(nb[|nb| - 1], num);
    TakenAll(nb, 0, num);
    assert nb[0..|nb| - 1] == nb[..|nb| - 1];
    PartsInUse(Branch(nb, num), meta, run, use);
  }

  lemma PartsInUse(all: multiset<nat>, meta: multiset<nat>, run: seq<nat>, use: set<nat>)
    requires Unshared(all) && all == meta + multiset(run) && Elements(all) <= use
    ensures Unshared(meta) && Elements(meta) <= use && forall b :: b in run ==> b in use - Elements(meta)
  {
    UnsharedPart(all, meta, multiset(run));
    forall b | b in meta ensures b in use { assert b in Elements(all); }
    forall b | b in run ensures b in use && b !in meta {
      assert b in multiset(run);
      assert b in Elements(all);
    }
  }

  lemma RunFreed(c1: seq<Call>, u1: set<nat>, c2: seq<Call>, u2: set<nat>, start: nat, count: nat)
    requires c2 == c1 + [Call(start, count)] && u2 == u1 - set b | b in Run(start, count)
    ensures Freed(c1, u1, c2, u2, multiset(Run(start, count)))
  {
    ExpandOne(c1, Call(start, count));
    assert Elements(multiset(Run(start, count))) == set b | b in Run(start, count);
  }

  // ----- ext2_blks_to_allocate and ext2_splice_branch -----

  function HostOf(keys: seq<nat>, k: nat): Host
    requires k <= |keys|
  {
    if k == 0 then InInode else InBlock(keys[k - 1])
  }

  /** How many data blocks to allocate: up to the end of the node, and with `k` new
      indirect blocks no more than that; in an existing node only as many as there
      are unset pointers. */
  method BlksToAllocate(cells: seq<nat>, o: nat, k: nat, blks: nat, boundary: nat) returns (count: nat)
    requires blks >= 1 && o < |cells| && cells[o] == 0
    requires k == 0 ==> o + boundary < |cells|
    ensures 1 <= count <= blks && count <= boundary + 1
    ensures k > 0 ==> count == blks || count == boundary + 1
    ensures k == 0 ==> && (forall i :: o <= i < o + count ==> cells[i] == 0)
                       && (count == blks || count == boundary + 1 || cells[o + count] != 0)
  {
    if k > 0 {
      return if blks < boundary + 1 then blks else boundary + 1;
    }
    count := 1;
    while count < blks && count <= boundary && cells[o + count] == 0
      invariant 1 <= count <= blks && count <= boundary + 1
      invariant forall i :: o <= i < o + count ==> cells[i] == 0
      decreases blks - count
    {
      count := count + 1;
    }
  }

  /** Sets the missing pointer, and in a leaf node also those to the right of it. */
  method Splice(m: BlockMap, host: Host, o: nat, ind: nat, first: nat, num: nat)
    requires m.Has(host) && num >= 1 && o + (if ind == 0 then num else 1) <= |m.Cells(host)|
    modifies m`disk, m.iData
    ensures m.Has(host) && m.Cells(host) == Filled(old(m.Cells(host)), o, if ind == 0 then num else 1, first)
    ensures m.disk == BlockMap.Stored(old(m.disk), host, m.Cells(host))
    ensures host.InBlock? ==> m.iData[..] == old(m.iData[..])
  {
    hide Own, Sub, Shaped, Walk;
    ghost var s0 := m.Cells(host);
    m.SetCell(host, o, first);
    if ind == 0 && num > 1 {
      var i := 1;
      while i < num
        invariant 1 <= i <= num && m.Has(host) && m.Cells(host) == Filled(s0, o, i, first)
        invariant m.disk == BlockMap.Stored(old(m.disk), host, m.Cells(host))
        invariant host.InBlock? ==> m.iData[..] == old(m.iData[..])
      {
        m.SetCell(host, o + i, first + i);
        i := i + 1;
      }
    }
  }

  // ----- ext2_get_blocks -----

  /** The blocks `bno`, `bno + 1`, ... are mapped at `iblock` and the following
      `count - 1` logical blocks; every other mapping is as before. */
  ghost predicate NewlyMapped(ptrs: nat, d0: Disk, root0: seq<nat>, d1: Disk, root1: seq<nat>, iblock: nat, count: nat,
      bno: nat)
    requires ptrs >= NDIR && |root0| == |root1| == NSLOTS
  {
    forall b :: 0 <= b < Limit(ptrs) ==>
      Mapping(ptrs, d1, root1, b) == if iblock <= b < iblock + count then bno + (b - iblock)
          else Mapping(ptrs, d0, root0, b)
  }

  /** A tree does not notice changes to blocks that are not its own. */
  lemma TreeSame(ptrs: nat, d0: Disk, d1: Disk, root: seq<nat>, use: set<nat>)
    requires ptrs >= NDIR && Tree(ptrs, d0, root) && Elements(OwnAll(d0, root, Inode)) <= use && SameIn(d0, d1, use)
    ensures Tree(ptrs, d1, root) && OwnAll(d1, root, Inode) == OwnAll(d0, root, Inode)
    ensures forall b :: 0 <= b < Limit(ptrs) ==> Mapping(ptrs, d1, root, b) == Mapping(ptrs, d0, root, b)
  {
    hide Own, Sub, Shaped, Walk;
    forall b | b in OwnAll(d0, root, Inode) ensures b in use {
      assert b in Elements(OwnAll(d0, root, Inode));
    }
    FrameSlots(ptrs, d0, d1, root, root, 0, |root|, Inode);
    forall b: nat | 0 <= b < Limit(ptrs) ensures Mapping(ptrs, d1, root, b) == Mapping(ptrs, d0, root, b) {
      BlockRoundTrip(ptrs, b);
      var q := BlockToPath(ptrs, b).offsets;
      FrameWalk(ptrs, d0, d1, root, 0, |root|, Inode, q[0], q[1..]);
    }
  }

  /** The new blocks are in the tree once it is spliced. */
  lemma SpliceDone(ptrs: nat, d0: Disk, root0: seq<nat>, d1: Disk, root1: seq<nat>, iblock: nat, num: nat, bno: nat,
      added: multiset<nat>,
                   g0: seq<Call>, u0: set<nat>, g1: seq<Call>, u1: set<nat>)
    requires ptrs >= NDIR && iblock < Limit(ptrs) && Tree(ptrs, d0, root0) && Elements(OwnAll(d0, root0, Inode)) <= u0
    requires |root1| == NSLOTS && num <= BlockToPath(ptrs, iblock).boundary + 1
    requires SlotsGrafted(ptrs, d0, root0, d1, root1, Inode, BlockToPath(ptrs, iblock).offsets, num, bno, added)
    requires Took(g0, u0, g1, u1, added)
    ensures Tree(ptrs, d1, root1) && Elements(OwnAll(d1, root1, Inode)) <= u1
    ensures NewlyMapped(ptrs, d0, root0, d1, root1, iblock, num, bno)
    ensures OwnAll(d1, root1, Inode) == OwnAll(d0, root0, Inode) + added
  {
    hide Own, Sub, Shaped, Walk;
    var all0, all1 := OwnAll(d0, root0, Inode), OwnAll(d1, root1, Inode);
    forall b | b in all0 ensures b !in added {
      assert b in Elements(all0) && (b in added ==> b in Elements(added));
    }
    GraftedTree(ptrs, d0, root0, d1, root1, BlockToPath(ptrs, iblock).offsets, num, bno, added);
    forall b: nat | 0 <= b < Limit(ptrs)
      ensures Mapping(ptrs, d1, root1, b) == if iblock <= b < iblock + num then bno + (b - iblock)
          else Mapping(ptrs, d0, root0, b)
    {
      GraftMapping(ptrs, d0, root0, d1, root1, iblock, num, bno, added, b);
    }
    forall b | b in all1 ensures b in u1 {
      assert b in Elements(all0) || b in Elements(added);
    }
  }

  /** What holds at the node where a chain breaks off. */
  ghost predicate Gap(ptrs: nat, s: seq<nat>, lv: Level, path: seq<nat>, k: nat, boundary: nat)
    requires k < |path|
  {
    var o, ind := path[k], |path| - 1 - k;
    && o < |s| && s[o] == 0 && SlotHeight(lv, o) == ind
    && BranchFits(ptrs, ind, boundary + 1, path[k..])
    && (ind == 0 ==> o + boundary < |s| && forall i :: o <= i <= o + boundary ==> SlotHeight(lv, i) == 0)
  }

  lemma ChainGap(ptrs: nat, d: Disk, root: seq<nat>, iblock: nat, keys: seq<nat>, k: nat, use: set<nat>)
    requires ptrs >= NDIR && Tree(ptrs, d, root) && iblock < Limit(ptrs) && Elements(OwnAll(d, root, Inode)) <= use
    requires IsChain(d, root, BlockToPath(ptrs, iblock).offsets, keys) && k == |keys| - 1 && keys[k] == 0
    ensures var p := BlockToPath(ptrs, iblock);
            p.boundary >= 0 && Gap(ptrs, SlotsAt(k, keys, d, root), LevelAt(k, p.offsets), p.offsets, k, p.boundary)
    ensures k > 0 ==> keys[k - 1] in d && keys[k - 1] in use
  {
    hide Own, Sub, Shaped, Walk;
    var p := BlockToPath(ptrs, iblock);
    BoundaryCounts(ptrs, iblock, 0);
    ChainNode(ptrs, d, root, p.offsets, keys, k);
    GapFits(ptrs, p.offsets, k, p.boundary);
    assert k > 0 ==> keys[k - 1] in Elements(OwnAll(d, root, Inode));
    NodeGap(ptrs, d, root, p.offsets, keys, k, p.boundary);
  }

  lemma NodeGap(ptrs: nat, d: Disk, root: seq<nat>, path: seq<nat>, keys: seq<nat>, k: nat, boundary: nat)
    requires k < |keys| <= |path| && NodeAt(ptrs, d, root, path, keys, k) && keys[k] == 0 && |root| == NSLOTS
    requires BranchFits(ptrs, |path| - 1 - k, boundary + 1, path[k..])
    requires path[|path| - 1] + boundary + 1 == (if |path| == 1 then NDIR else ptrs)
    ensures Gap(ptrs, SlotsAt(k, keys, d, root), LevelAt(k, path), path, k, boundary)
  {
    hide Own, Sub, Shaped, Walk;
  }

  lemma GapFits(ptrs: nat, path: seq<nat>, k: nat, boundary: nat)
    requires ValidPath(ptrs, path) && k < |path|
    requires path[|path| - 1] + boundary + 1 == (if |path| == 1 then NDIR else ptrs)
    ensures BranchFits(ptrs, |path| - 1 - k, boundary + 1, path[k..])
  {
    var tail := path[k..];
    forall n | 1 <= n <= |path| - 1 - k ensures tail[n] < ptrs {
      assert tail[n] == path[1..][k + n - 1];
    }
  }

  /** A linked branch is ready to be spliced in at level `k` of the chain. */
  ghost predicate Ready(ptrs: nat, d0: Disk, s0: seq<nat>, dm: Disk, lv: Level, path: seq<nat>, k: nat, boundary: nat,
                        z: seq<nat>, nb: seq<nat>, num: nat, u0: set<nat>) {
    && k < |path| && Gap(ptrs, s0, lv, path, k, boundary)
    && |nb| == |path| - k && 1 <= num <= boundary + 1 && Blank(ptrs, z)
    && (forall i :: 0 <= i < |nb| ==> nb[i] !in u0 && nb[i] != 0)
    && (forall i :: 0 <= i < |nb| - 1 ==> LinkedAt(dm, z, nb, path[k..], num, i))
    && (|nb| == 1 ==> forall i :: path[k] <= i < path[k] + num ==> s0[i] == 0)
    && SameIn(d0, dm, u0)
  }

  /** The disk and the inode after the splice. */
  ghost predicate SplicedIn(s0: seq<nat>, dm: Disk, root0: seq<nat>, d1: Disk, root1: seq<nat>, keys: seq<nat>, k: nat,
      o: nat, nb: seq<nat>, num: nat)
    requires k < |keys| && |nb| >= 1
  {
    var n := if |nb| == 1 then num else 1;
    && o + n <= |s0|
    && if k == 0 then d1 == dm && root1 == Filled(s0, o, n, nb[0])
       else d1 == dm[keys[k - 1] := Filled(s0, o, n, nb[0])] && root1 == root0
  }

  /** The spliced branch is in place, and nothing else has changed. */
  lemma SplicePlaced(ptrs: nat, d0: Disk, root0: seq<nat>, dm: Disk, d1: Disk, root1: seq<nat>, path: seq<nat>,
      keys: seq<nat>, k: nat,
                     boundary: nat, z: seq<nat>, nb: seq<nat>, num: nat, u0: set<nat>)
    requires k < |keys| <= |path|
    requires Ready(ptrs, d0, SlotsAt(k, keys, d0, root0), dm, LevelAt(k, path), path, k, boundary, z, nb, num, u0)
    requires SplicedIn(SlotsAt(k, keys, d0, root0), dm, root0, d1, root1, keys, k, path[k], nb, num)
    requires Elements(OwnAll(d0, root0, Inode)) <= u0 && (k > 0 ==> keys[k - 1] in d0 && keys[k - 1] in u0)
    ensures OnlyAt(d0, root0, d1, root1, keys, k)
    ensures InPlace(ptrs, d0, SlotsAt(k, keys, d0, root0), d1, SlotsAt(k, keys, d1, root1), LevelAt(k, path), path[k..],
        z, nb, num)
  {
    hide Own, Sub, Shaped, Walk;
    forall i | 0 <= i < |nb| - 1 ensures LinkedAt(d1, z, nb, path[k..], num, i) {
      assert LinkedAt(dm, z, nb, path[k..], num, i);
    }
    forall b | b in OwnAll(d0, root0, Inode) ensures b in u0 {
      assert b in Elements(OwnAll(d0, root0, Inode));
    }
  }

  /** The state after an allocation of `count` blocks from `bno` on. */
  ghost predicate Allocated(ptrs: nat, d0: Disk, root0: seq<nat>, g0: seq<Call>, u0: set<nat>,
                            d1: Disk, root1: seq<nat>, g1: seq<Call>, u1: set<nat>, iblock: nat, count: nat, bno: nat)
    requires ptrs >= NDIR && |root0| == |root1| == NSLOTS
  {
    var all0, all1 := OwnAll(d0, root0, Inode), OwnAll(d1, root1, Inode);
    && Tree(ptrs, d1, root1) && Elements(all1) <= u1 && bno > 0
    && NewlyMapped(ptrs, d0, root0, d1, root1, iblock, count, bno)
    && all0 <= all1 && Took(g0, u0, g1, u1, all1 - all0)
  }

  lemma SpliceResult(ptrs: nat, d0: Disk, root0: seq<nat>, dm: Disk, d1: Disk, root1: seq<nat>, iblock: nat,
      keys: seq<nat>, k: nat,
                     z: seq<nat>, nb: seq<nat>, num: nat, g0: seq<Call>, u0: set<nat>, g1: seq<Call>, u1: set<nat>)
    requires ptrs >= NDIR && Tree(ptrs, d0, root0) && iblock < Limit(ptrs) && Elements(OwnAll(d0, root0, Inode)) <= u0
    requires BlockToPath(ptrs, iblock).boundary >= 0
    requires var p := BlockToPath(ptrs, iblock);
             && IsChain(d0, root0, p.offsets, keys) && k < |keys|
             && Ready(ptrs, d0, SlotsAt(k, keys, d0, root0), dm, LevelAt(k, p.offsets), p.offsets, k, p.boundary, z, nb,
                  num, u0)
             && SplicedIn(SlotsAt(k, keys, d0, root0), dm, root0, d1, root1, keys, k, p.offsets[k], nb, num)
    requires k > 0 ==> keys[k - 1] in d0 && keys[k - 1] in u0
    requires |root1| == NSLOTS && Took(g0, u0, g1, u1, Branch(nb, num))
    ensures Allocated(ptrs, d0, root0, g0, u0, d1, root1, g1, u1, iblock, num, nb[|nb| - 1])
  {
    hide Own, Sub, Shaped, Walk;
    var p := BlockToPath(ptrs, iblock);
    var added, all0, all1 := Branch(nb, num), OwnAll(d0, root0, Inode), OwnAll(d1, root1, Inode);
    BlockRoundTrip(ptrs, iblock);
    SplicePlaced(ptrs, d0, root0, dm, d1, root1, p.offsets, keys, k, p.boundary, z, nb, num, u0);
    SpliceGrafted(ptrs, d0, root0, d1, root1, p.offsets, keys, z, nb, num, k);
    SpliceDone(ptrs, d0, root0, d1, root1, iblock, num, nb[|nb| - 1], added, g0, u0, g1, u1);
    assert all1 == all0 + added && all1 - all0 == added;
  }

  /** Splices the branch in. */
  method Attach(m: BlockMap, iblock: nat, path: seq<nat>, keys: seq<nat>, k: nat, nb: seq<nat>, num: nat,
                ghost boundary: nat, ghost z: seq<nat>, ghost d0: Disk, ghost g0: seq<Call>, ghost u0: set<nat>)
    requires m.ptrs >= NDIR && iblock < Limit(m.ptrs) && BlockToPath(m.ptrs, iblock) == Path(path, boundary)
    requires Tree(m.ptrs, d0, m.iData[..]) && Elements(OwnAll(d0, m.iData[..], Inode)) <= u0
    requires IsChain(d0, m.iData[..], path, keys) && k < |keys|
    requires Ready(m.ptrs, d0, SlotsAt(k, keys, d0, m.iData[..]), m.disk, LevelAt(k, path), path, k, boundary, z, nb,
        num, u0)
    requires k > 0 ==> keys[k - 1] in d0 && keys[k - 1] in u0
    requires Took(g0, u0, m.grants, m.inUse, Branch(nb, num))
    modifies m`disk, m.iData
    ensures m.iData.Length == NSLOTS
    ensures Allocated(m.ptrs, d0, old(m.iData[..]), g0, u0, m.disk, m.iData[..], m.grants, m.inUse, iblock, num,
        nb[|nb| - 1])
  {
    hide Own, Sub, Shaped, Walk;
    ghost var dm, root0 := m.disk, m.iData[..];
    Splice(m, HostOf(keys, k), path[k], |nb| - 1, nb[0], num);
    SpliceResult(m.ptrs, d0, root0, dm, m.disk, m.iData[..], iblock, keys, k, z, nb, num, g0, u0, m.grants, m.inUse);
  }

  /** What an allocation at `iblock` leaves behind: the new blocks in the tree or,
      after an error, everything taken given back and the tree as it was. */
  ghost predicate Extended(v0: Volume, v1: Volume, iblock: nat, err: Errno, count: nat, bno: nat) {
    && Sane(v0) && Sane(v1) && v1.ptrs == v0.ptrs
    && if err == OK then
         && v1.calls == v0.calls
         && Allocated(v0.ptrs, v0.disk, v0.root, v0.grants, v0.inUse, v1.disk, v1.root, v1.grants, v1.inUse, iblock,
              count, bno)
       else
         && v1.root == v0.root && SameIn(v0.disk, v1.disk, v0.inUse)
         && v1.inUse == v0.inUse && Returned(v0.grants, v0.calls, v1.grants, v1.calls)
  }

  /** Takes up to `blks` blocks and the indirect blocks that lead to them, and splices
      them in where the chain breaks off. */
  method Grow(m: BlockMap, iblock: nat, p: Path, blks: nat, keys: seq<nat>, k: nat, noBuf: set<nat>)
    returns (err: Errno, count: nat, bno: nat)
    requires m.ptrs >= NDIR && m.iData.Length == NSLOTS && iblock < Limit(m.ptrs) && BlockToPath(m.ptrs, iblock) == p
    requires Tree(m.ptrs, m.disk, m.iData[..]) && Elements(OwnAll(m.disk, m.iData[..], Inode)) <= m.inUse
    requires IsChain(m.disk, m.iData[..], p.offsets, keys) && k < |keys|
    requires p.boundary >= 0 && Gap(m.ptrs, SlotsAt(k, keys, m.disk, m.iData[..]), LevelAt(k, p.offsets), p.offsets, k,
        p.boundary)
    requires k > 0 ==> keys[k - 1] in m.disk && keys[k - 1] in m.inUse
    requires 1 <= blks <= p.boundary + 1
    requires var s, o := SlotsAt(k, keys, m.disk, m.iData[..]), p.offsets[k];
             k + 1 == |p.offsets| ==> o + blks <= |s| && forall i :: o <= i < o + blks ==> s[i] == 0
    modifies m`disk, m`inUse, m`calls, m`grants, m.iData
    ensures err == OK ==> 1 <= count <= blks
    ensures Extended(old(m.Now()), m.Now(), iblock, err, count, bno)
  {
    hide Own, Sub, Shaped, Walk, Allocated, Returned, Took, Tree, OwnAll, SameIn, IsChain, BlockToPath;
    ghost var d0, g0, u0 := m.disk, m.grants, m.inUse;
    bno := 0;
    var ind := |p.offsets| - 1 - k;
    var nb;
    ghost var z;
    nb, count, err, z := AllocBranch(m, ind, blks, p.offsets[k..], noBuf);
    if err == OK {
      TakenBlocks(nb, count, g0, u0, m.grants, m.inUse);
      Attach(m, iblock, p.offsets, keys, k, nb, count, p.boundary, z, d0, g0, u0);
      bno := nb[ind];
    }
  }

  /** Allocates at the unset pointer where the chain breaks off: as many blocks as the
      file system gives, up to `maxblocks` and the end of the leaf node. */
  method Extend(m: BlockMap, iblock: nat, maxblocks: nat, keys: seq<nat>, noBuf: set<nat>)
    returns (err: Errno, count: nat, bno: nat)
    requires m.Valid() && iblock < Limit(m.ptrs) && maxblocks >= 1
    requires IsChain(m.disk, m.iData[..], BlockToPath(m.ptrs, iblock).offsets, keys) && keys[|keys| - 1] == 0
    modifies m`disk, m`inUse, m`calls, m`grants, m.iData
    ensures err == OK ==> 1 <= count <= maxblocks && count <= BlockToPath(m.ptrs, iblock).boundary + 1
    ensures Extended(old(m.Now()), m.Now(), iblock, err, count, bno)
  {
    hide Own, Sub, Shaped, Walk;
    var p, k := BlockToPath(m.ptrs, iblock), |keys| - 1;
    ChainGap(m.ptrs, m.disk, m.iData[..], iblock, keys, k, m.inUse);
    count := BlksToAllocate(SlotsAt(k, keys, m.disk, m.iData[..]), p.offsets[k], |p.offsets| - 1 - k, maxblocks,
        p.boundary);
    err, count, bno := Grow(m, iblock, p, count, keys, k, noBuf);
  }

  // ----- looking blocks up -----

  /** A complete chain leads to the data block. */
  lemma {:induction false} ChainWalk(d: Disk, root: seq<nat>, path: seq<nat>, keys: seq<nat>, i: nat)
    requires IsChain(d, root, path, keys) && |keys| == |path| && i < |keys|
    ensures Walk(d, keys[i], path[i + 1..]) == keys[|keys| - 1]
    decreases |keys| - i
  {
    hide Own, Sub, Shaped;
    if i < |keys| - 1 {
      ChainWalk(d, root, path, keys, i + 1);
      assert path[i + 1..][1..] == path[i + 2..];
    }
  }

  /** A chain that breaks off leads nowhere. */
  lemma {:induction false} BrokenWalk(d: Disk, root: seq<nat>, path: seq<nat>, keys: seq<nat>, i: nat)
    requires IsChain(d, root, path, keys) && keys[|keys| - 1] == 0 && i < |keys|
    ensures Walk(d, keys[i], path[i + 1..]) == 0
    decreases |keys| - i
  {
    if i < |keys| - 1 {
      BrokenWalk(d, root, path, keys, i + 1);
      assert path[i + 1..][1..] == path[i + 2..];
    }
  }

  /** The pointers to the right of a complete chain in its last node are the mappings
      of the following blocks. */
  lemma LeafMaps(ptrs: nat, d: Disk, root: seq<nat>, iblock: nat, keys: seq<nat>, j: nat)
    requires ptrs >= NDIR && Tree(ptrs, d, root) && iblock < Limit(ptrs)
    requires var p := BlockToPath(ptrs, iblock);
             IsChain(d, root, p.offsets, keys) && |keys| == |p.offsets| && j <= p.boundary
    ensures var p := BlockToPath(ptrs, iblock);
            var last := |p.offsets| - 1;
            var s := SlotsAt(last, keys, d, root);
            p.offsets[last] + j < |s| && iblock + j < Limit(ptrs)
                && Mapping(ptrs, d, root, iblock + j) == s[p.offsets[last] + j]
  {
    hide Own, Sub, Shaped, Walk;
    var p := BlockToPath(ptrs, iblock);
    var path, last := p.offsets, |p.offsets| - 1;
    BoundaryCounts(ptrs, iblock, j);
    var s, q := SlotsAt(last, keys, d, root), Bump(path, j);
    assert |s| == (if last == 0 then NSLOTS else ptrs) by { ChainSlot(ptrs, d, root, path, keys, last); }
    var keys' := keys[last := s[path[last] + j]];
    assert IsChain(d, root, q, keys');
    ChainWalk(d, root, q, keys', 0);
  }

  lemma ChainMaps(ptrs: nat, d: Disk, root: seq<nat>, iblock: nat, keys: seq<nat>)
    requires ptrs >= NDIR && Tree(ptrs, d, root) && iblock < Limit(ptrs)
    requires var path := BlockToPath(ptrs, iblock).offsets;
             IsChain(d, root, path, keys) && (|keys| == |path| || keys[|keys| - 1] == 0)
    ensures Mapping(ptrs, d, root, iblock) == keys[|keys| - 1]
  {
    hide Own, Sub, Shaped, Walk;
    var path := BlockToPath(ptrs, iblock).offsets;
    BlockRoundTrip(ptrs, iblock);
    if |keys| == |path| {
      ChainWalk(d, root, path, keys, 0);
    } else {
      BrokenWalk(d, root, path, keys, 0);
    }
  }

  /** The blocks `iblock` to `iblock + count - 1` are mapped to consecutive blocks. */
  ghost predicate Consecutive(ptrs: nat, d: Disk, root: seq<nat>, iblock: nat, count: nat, bno: nat)
    requires ptrs >= NDIR && |root| == NSLOTS
  {
    iblock + count <= Limit(ptrs) && forall b :: iblock <= b < iblock + count ==>
        Mapping(ptrs, d, root, b) == bno + (b - iblock)
  }

  lemma NextConsecutive(ptrs: nat, d: Disk, root: seq<nat>, iblock: nat, count: nat, bno: nat)
    requires ptrs >= NDIR && |root| == NSLOTS && iblock + count < Limit(ptrs)
    requires Consecutive(ptrs, d, root, iblock, count, bno)
    ensures Consecutive(ptrs, d, root, iblock, count + 1, bno) <==>
        Mapping(ptrs, d, root, iblock + count) == bno + count
  {
    hide Own, Sub, Shaped, Walk;
    if Consecutive(ptrs, d, root, iblock, count + 1, bno) {
      var b := iblock + count;
      assert Mapping(ptrs, d, root, b) == bno + (b - iblock);
    }
  }

  lemma FoundOne(ptrs: nat, d: Disk, root: seq<nat>, iblock: nat, keys: seq<nat>)
    requires ptrs >= NDIR && Tree(ptrs, d, root) && iblock < Limit(ptrs)
    requires var path := BlockToPath(ptrs, iblock).offsets; IsChain(d, root, path, keys) && |keys| == |path|
    ensures BlockToPath(ptrs, iblock).boundary >= 0 && Consecutive(ptrs, d, root, iblock, 1, keys[|keys| - 1])
  {
    hide Own, Sub, Walk;
    BoundaryCounts(ptrs, iblock, 0);
    ChainMaps(ptrs, d, root, iblock, keys);
    NextConsecutive(ptrs, d, root, iblock, 0, keys[|keys| - 1]);
  }

  /** Whether the pointers met along the path are still the same. */
  method VerifyChain(ptrs: nat, d: Disk, root: seq<nat>, path: seq<nat>, keys: seq<nat>) returns (ok: bool)
    requires ptrs >= NDIR && Tree(ptrs, d, root) && ValidPath(ptrs, path) && 1 <= |keys| <= |path|
    requires forall i :: 0 <= i < |keys| - 1 ==> keys[i] != 0
    ensures ok <==> IsChain(d, root, path, keys)
  {
    hide Own, Sub, Shaped, Walk;
    if keys[0] != root[path[0]] {
      return false;
    }
    var i := 1;
    while i < |keys|
      invariant 1 <= i <= |keys| && IsChain(d, root, path, keys[..i])
    {
      NextKey(ptrs, d, root, path, keys[..i]);
      if keys[i] != d[keys[i - 1]][path[i]] {
        return false;
      }
      assert keys[..i + 1] == keys[..i] + [keys[i]];
      i := i + 1;
    }
    assert keys[..i] == keys;
    return true;
  }

  // ----- ext2_get_blocks -----

  /** What a lookup that may allocate promises. */
  ghost predicate Answered(v0: Volume, v1: Volume, iblock: nat, maxblocks: nat, err: Errno, count: nat, bno: nat,
      isNew: bool) {
    && Sane(v0) && Sane(v1) && v1.ptrs == v0.ptrs
    && (err == OK ==> && count <= maxblocks && count <= BlockToPath(v1.ptrs, iblock).boundary + 1
                      && (count > 0 ==> bno > 0 && Consecutive(v1.ptrs, v1.disk, v1.root, iblock, count, bno)))
    && if isNew then err == OK && count > 0 && Extended(v0, v1, iblock, err, count, bno)
       else if err == OK then v1 == v0
       else Kept(v0, v1)
  }

  /** After an error the tree is as it was, and all blocks taken are given back. */
  ghost predicate Kept(v0: Volume, v1: Volume)
    requires Sane(v0) && Sane(v1)
  {
    && v1.root == v0.root && OwnAll(v1.disk, v1.root, Inode) == OwnAll(v0.disk, v0.root, Inode)
    && (forall b :: 0 <= b < Limit(v0.ptrs) ==>
         Mapping(v0.ptrs, v1.disk, v1.root, b) == Mapping(v0.ptrs, v0.disk, v0.root, b))
    && v1.inUse == v0.inUse && Returned(v0.grants, v0.calls, v1.grants, v1.calls)
  }

  lemma MappedConsecutive(ptrs: nat, d0: Disk, root0: seq<nat>, d1: Disk, root1: seq<nat>, iblock: nat, count: nat,
      bno: nat)
    requires ptrs >= NDIR && |root0| == |root1| == NSLOTS && iblock < Limit(ptrs)
    requires 1 <= count <= BlockToPath(ptrs, iblock).boundary + 1
    requires NewlyMapped(ptrs, d0, root0, d1, root1, iblock, count, bno)
    ensures Consecutive(ptrs, d1, root1, iblock, count, bno)
  {
    hide Own, Sub, Shaped, Walk;
    BoundaryCounts(ptrs, iblock, count - 1);
  }

  /** Extends the tree, or leaves it as it was. */
  method ExtendOrKeep(m: BlockMap, iblock: nat, maxblocks: nat, keys: seq<nat>, noBuf: set<nat>)
    returns (err: Errno, count: nat, bno: nat)
    requires m.Valid() && iblock < Limit(m.ptrs) && maxblocks >= 1
    requires IsChain(m.disk, m.iData[..], BlockToPath(m.ptrs, iblock).offsets, keys) && keys[|keys| - 1] == 0
    modifies m`disk, m`inUse, m`calls, m`grants, m.iData
    ensures m.Valid() && (err == OK ==> count > 0)
    ensures Answered(old(m.Now()), m.Now(), iblock, maxblocks, err, count, bno, err == OK)
  {
    hide Own, Sub, Shaped, Walk;
    ghost var d0, root0, u0 := m.disk, m.iData[..], m.inUse;
    err, count, bno := Extend(m, iblock, maxblocks, keys, noBuf);
    if err == OK {
      MappedConsecutive(m.ptrs, d0, root0, m.disk, m.iData[..], iblock, count, bno);
    } else {
      TreeSame(m.ptrs, d0, m.disk, root0, u0);
    }
  }

  /** The part of ext2_get_blocks under the truncate mutex.  `stale` is the chain that
      was read before the mutex was taken; the tree may have changed since. */
  method AllocateLocked(m: BlockMap, iblock: nat, maxblocks: nat, stale: seq<nat>, again: bool, bad: set<nat>,
      noBuf: set<nat>)
    returns (err: Errno, count: nat, bno: nat, isNew: bool)
    requires m.Valid() && iblock < Limit(m.ptrs) && maxblocks >= 1
    requires 1 <= |stale| <= |BlockToPath(m.ptrs, iblock).offsets| && forall i :: 0 <= i < |stale| - 1 ==> stale[i] != 0
    requires !again ==> stale[|stale| - 1] == 0
    modifies m`disk, m`inUse, m`calls, m`grants, m.iData
    ensures m.Valid() && (err == OK ==> count > 0)
    ensures Answered(old(m.Now()), m.Now(), iblock, maxblocks, err, count, bno, isNew)
  {
    hide Own, Sub, Shaped, Walk;
    BlockRoundTrip(m.ptrs, iblock);
    var path := BlockToPath(m.ptrs, iblock).offsets;
    var keys, ok := stale, false;
    if !again {
      ok := VerifyChain(m.ptrs, m.disk, m.iData[..], path, stale);
    }
    count, bno, isNew := 0, 0, false;
    if !ok {
      keys, err := m.GetBranch(|path|, path, bad);
      if err != OK {
        return;
      }
      if keys[|keys| - 1] != 0 {
        FoundOne(m.ptrs, m.disk, m.iData[..], iblock, keys);
        return OK, 1, keys[|keys| - 1], false;
      }
    }
    err, count, bno := ExtendOrKeep(m, iblock, maxblocks, keys, noBuf);
    isNew := err == OK;
  }
}

/** Bookkeeping of freed blocks (io_uring/inode.c, ext2_free_data): runs of
    consecutive blocks handed to ext2_free_blocks, and what they amount to. */
module Ext2Free {
  import opened Ext2Tree

  /** One call of ext2_free_blocks: `count` blocks from `start` on. */
  datatype Call = Call(start: nat, count: nat)

  function Run(start: nat, count: nat): seq<nat> {
    seq(count, i requires 0 <= i < count => start + i)
  }

  /** The blocks freed by a sequence of calls, in order. */
  function Expand(calls: seq<Call>): seq<nat> {
    if calls == [] then []
    else Expand(calls[..|calls| - 1]) + Run(calls[|calls| - 1].start, calls[|calls| - 1].count)
  }

  /** The nonzero pointers among `s[lo..hi]`, in order. */
  function NonZero(s: seq<nat>, lo: nat, hi: nat): seq<nat>
    requires lo <= hi <= |s|
    decreases hi
  {
    if lo == hi then []
    else NonZero(s, lo, hi - 1) + if s[hi - 1] == 0 then [] else [s[hi - 1]]
  }

  ghost function Elements(m: multiset<nat>): set<nat> {
    set b | b in m
  }

  /** Between two states exactly the blocks `m` were freed, as often as `m` has
      them, and they left the set of blocks in use. */
  ghost predicate Freed(calls0: seq<Call>, use0: set<nat>, calls1: seq<Call>, use1: set<nat>, m: multiset<nat>) {
    && multiset(Expand(calls1)) == multiset(Expand(calls0)) + m
    && use1 == use0 - Elements(m)
  }

  lemma FreedNothing(calls: seq<Call>, use: set<nat>)
    ensures Freed(calls, use, calls, use, multiset{})
  {
  }

  lemma FreedTwice(calls0: seq<Call>, use0: set<nat>, calls1: seq<Call>, use1: set<nat>, calls2: seq<Call>,
      use2: set<nat>,
                   m: multiset<nat>, m': multiset<nat>)
    requires Freed(calls0, use0, calls1, use1, m) && Freed(calls1, use1, calls2, use2, m')
    ensures Freed(calls0, use0, calls2, use2, m + m')
  {
    hide Own, Sub, Shaped, Walk;
    assert Elements(m + m') == Elements(m) + Elements(m');
  }

  /** Where all slots hold data pointers, what they own are the nonzero ones. */
  lemma {:induction false} OwnData(d: Disk, s: seq<nat>, lo: nat, hi: nat, lv: Level)
    requires lo <= hi <= |s| && forall i :: lo <= i < hi ==> SlotHeight(lv, i) == 0
    ensures Own(d, s, lo, hi, lv) == multiset(NonZero(s, lo, hi))
    decreases hi
  {
    hide Shaped, Walk;
    if lo < hi {
      OwnData(d, s, lo, hi - 1, lv);
    }
  }

  /** `s` with the slots `lo` to `hi - 1` cleared. */
  function Cleared(s: seq<nat>, lo: nat, hi: nat): (r: seq<nat>)
    requires lo <= hi <= |s|
    ensures |r| == |s| && forall i :: 0 <= i < |s| ==> r[i] == if lo <= i < hi then 0 else s[i]
    decreases hi
  {
    if lo == hi then s else Cleared(s, lo, hi - 1)[hi - 1 := 0]
  }

  lemma {:induction false} NonZeroPrefix(s: seq<nat>, lo: nat, mid: nat, hi: nat)
    requires lo <= mid <= hi <= |s|
    ensures NonZero(s, lo, mid) <= NonZero(s, lo, hi)
    decreases hi
  {
    if mid < hi {
      NonZeroPrefix(s, lo, mid, hi - 1);
    }
  }

  /** In a sequence without repetitions a later part repeats nothing earlier. */
  lemma PartsApart(all: seq<nat>, out: seq<nat>, run: seq<nat>, b: nat)
    requires Unshared(multiset(all)) && out + run <= all && b in run
    ensures b in all && b !in out
  {
    var rest := all[|out + run|..];
    assert all == out + run + rest;
    assert multiset(all) == multiset(out) + multiset(run) + multiset(rest);
    assert b in multiset(run) && b in multiset(all);
    assert b in out ==> b in multiset(out);
  }

  /** The calls made so far and the run that is still being collected. */
  datatype Runs = Runs(done: seq<Call>, start: nat, count: nat)

  /** What the loop of ext2_free_data has collected from `s[lo..hi]`. */
  function Coalesce(s: seq<nat>, lo: nat, hi: nat): Runs
    requires lo <= hi <= |s|
    decreases hi
  {
    if lo == hi then Runs([], 0, 0)
    else
      var r, nr := Coalesce(s, lo, hi - 1), s[hi - 1];
      if nr == 0 then r
      else if r.count == 0 then Runs(r.done, nr, 1)
      else if r.start + r.count == nr then Runs(r.done, r.start, r.count + 1)
      else Runs(r.done + [Call(r.start, r.count)], nr, 1)
  }

  /** All calls made for `s[lo..hi]`, the last run included. */
  function DataCalls(s: seq<nat>, lo: nat, hi: nat): seq<Call>
    requires lo <= hi <= |s|
  {
    var r := Coalesce(s, lo, hi);
    if r.count > 0 then r.done + [Call(r.start, r.count)] else r.done
  }

  lemma ExpandOne(calls: seq<Call>, c: Call)
    ensures Expand(calls + [c]) == Expand(calls) + Run(c.start, c.count)
  {
    assert (calls + [c])[..|calls|] == calls;
  }

  lemma {:induction false} ExpandConcat(a: seq<Call>, b: seq<Call>)
    ensures Expand(a + b) == Expand(a) + Expand(b)
  {
    hide Own, Sub, Shaped, Walk;
    if b == [] {
      assert a + b == a;
    } else {
      var init, c := b[..|b| - 1], b[|b| - 1];
      calc {
        Expand(a + b);
        { assert a + b == a + init + [c]; ExpandOne(a + init, c); }
        Expand(a + init) + Run(c.start, c.count);
        { ExpandConcat(a, init); }
        Expand(a) + Expand(init) + Run(c.start, c.count);
        { assert b == init + [c]; ExpandOne(init, c); }
        Expand(a) + Expand(b);
      }
    }
  }

  lemma RunOne(nr: nat)
    ensures Run(nr, 1) == [nr]
  {
  }

  lemma RunNext(start: nat, count: nat)
    ensures Run(start, count + 1) == Run(start, count) + [start + count]
  {
  }

  /** The runs collected so far are the nonzero pointers seen so far, in order. */
  lemma {:induction false} CoalesceExpands(s: seq<nat>, lo: nat, hi: nat)
    requires lo <= hi <= |s|
    ensures var r := Coalesce(s, lo, hi);
            Expand(r.done) + Run(r.start, r.count) == NonZero(s, lo, hi)
    decreases hi
  {
    hide Own, Sub, Shaped, Walk;
    if lo < hi && s[hi - 1] != 0 {
      CoalesceExpands(s, lo, hi - 1);
      var r, nr := Coalesce(s, lo, hi - 1), s[hi - 1];
      RunOne(nr);
      if r.count == 0 {
      } else if r.start + r.count == nr {
        RunNext(r.start, r.count);
      } else {
        ExpandOne(r.done, Call(r.start, r.count));
      }
    } else if lo < hi {
      CoalesceExpands(s, lo, hi - 1);
    }
  }

  /** The calls expand to exactly the nonzero pointers, in order. */
  lemma DataCallsExpand(s: seq<nat>, lo: nat, hi: nat)
    requires lo <= hi <= |s|
    ensures Expand(DataCalls(s, lo, hi)) == NonZero(s, lo, hi)
  {
    hide Own, Sub, Shaped, Walk;
    CoalesceExpands(s, lo, hi);
    var r := Coalesce(s, lo, hi);
    ExpandOne(r.done, Call(r.start, r.count));
  }

  ghost predicate Maximal(c: seq<Call>) {
    && (forall i :: 0 <= i < |c| ==> c[i].count > 0)
    && (forall i, j :: 0 <= i && j == i + 1 < |c| ==> c[i].start + c[i].count != c[j].start)
  }

  lemma MaximalAppend(c: seq<Call>, nr: nat)
    requires Maximal(c) && (c == [] || c[|c| - 1].start + c[|c| - 1].count != nr)
    ensures Maximal(c + [Call(nr, 1)])
  {
    hide Own, Sub, Shaped, Walk;
  }

  lemma MaximalGrow(done: seq<Call>, start: nat, count: nat)
    requires Maximal(done + [Call(start, count)])
    ensures Maximal(done + [Call(start, count + 1)])
  {
    var c, c' := done + [Call(start, count)], done + [Call(start, count + 1)];
    forall i | 0 <= i < |c'| ensures c'[i].count > 0 {
      assert c[i].count > 0;
    }
    forall i, j | 0 <= i && j == i + 1 < |c'| ensures c'[i].start + c'[i].count != c'[j].start {
      assert c[i].start + c[i].count != c[j].start;
    }
  }

  /** No call could have been joined with the next one. */
  lemma {:induction false} CallsMaximal(s: seq<nat>, lo: nat, hi: nat)
    requires lo <= hi <= |s|
    ensures Maximal(DataCalls(s, lo, hi))
    ensures Coalesce(s, lo, hi).count == 0 ==> Coalesce(s, lo, hi).done == []
    decreases hi
  {
    hide Own, Sub, Shaped, Walk;
    if lo < hi {
      CallsMaximal(s, lo, hi - 1);
      var r, nr, c := Coalesce(s, lo, hi - 1), s[hi - 1], DataCalls(s, lo, hi - 1);
      if nr == 0 {
        assert DataCalls(s, lo, hi) == c;
      } else if r.count != 0 && r.start + r.count == nr {
        MaximalGrow(r.done, r.start, r.count);
      } else {
        assert DataCalls(s, lo, hi) == c + [Call(nr, 1)];
        MaximalAppend(c, nr);
      }
    }
  }

  // ----- freeing subtrees slot by slot -----

  /** Outside the blocks `m` and block `c` the disk is as it was. */
  ghost predicate Untouched(d0: Disk, d1: Disk, m: multiset<nat>, c: nat) {
    d1.Keys == d0.Keys && forall b :: b in d0 && b !in m && b != c ==> d1[b] == d0[b]
  }

  lemma UntouchedTwice(d0: Disk, d1: Disk, d2: Disk, m: multiset<nat>, c: nat, m': multiset<nat>, c': nat)
    requires Untouched(d0, d1, m, c) && Untouched(d1, d2, m', c') && c' in m'
    ensures Untouched(d0, d2, m + m', c)
  {
  }

  lemma UnsharedParts(all: multiset<nat>, left: multiset<nat>, mid: multiset<nat>, right: multiset<nat>)
    requires Unshared(all) && all == left + mid + right
    ensures Unshared(mid) && forall b :: b in mid ==> b !in left && b in all
  {
    forall b | b in mid ensures b !in left && b in all && mid[b] == 1 {
      assert b in all;
    }
  }

  /** While the slots of block `c` are freed from the left, the subtree of the next
      slot is still what it was. */
  lemma NextSlot(ptrs: nat, d0: Disk, d: Disk, c: nat, s: seq<nat>, lo: nat, p: nat, hi: nat, lv: Level)
    requires lo <= p < hi <= |s| && ShapedSlots(ptrs, d0, s, lo, hi, lv)
    requires Unshared(Own(d0, s, lo, hi, lv)) && c !in Own(d0, s, lo, hi, lv)
    requires Untouched(d0, d, Own(d0, s, lo, p, lv), c)
    ensures var h := SlotHeight(lv, p);
            && Shaped(ptrs, d, s[p], h) && Sub(d, s[p], h) == Sub(d0, s[p], h)
            && Unshared(Sub(d0, s[p], h))
            && (forall b :: b in Sub(d0, s[p], h) ==> b !in Own(d0, s, lo, p, lv) && b in Own(d0, s, lo, hi, lv))
  {
    hide Own, Sub, Shaped, Walk;
    var h := SlotHeight(lv, p);
    OwnSlot(d0, s, lo, p, hi, lv);
    UnsharedParts(Own(d0, s, lo, hi, lv), Own(d0, s, lo, p, lv), Sub(d0, s[p], h), Own(d0, s, p + 1, hi, lv));
    Frame(ptrs, d0, d, s[p], h);
  }

  lemma NextSlotInUse(left: multiset<nat>, sub: multiset<nat>, all: multiset<nat>, use0: set<nat>, use: set<nat>)
    requires use == use0 - Elements(left) && Elements(all) <= use0
    requires forall b :: b in sub ==> b !in left && b in all
    ensures Elements(sub) <= use
  {
    forall b | b in sub ensures b in use {
      assert b in Elements(all);
    }
  }

  lemma SlotFreed(d0: Disk, d1: Disk, d2: Disk, left: multiset<nat>, sub: multiset<nat>, c: nat, nr: nat)
    requires Untouched(d0, d1, left, c) && c in d1
    requires Untouched(d1, d2, sub, nr) && nr in sub && c !in sub
    ensures Untouched(d0, d2, left + sub, c) && d2[c] == d1[c]
  {
  }

  /** The calls of ext2_free_data free the nonzero pointers. */
  lemma DataFreed(calls0: seq<Call>, use0: set<nat>, calls1: seq<Call>, use1: set<nat>, s: seq<nat>, lo: nat, hi: nat)
    requires lo <= hi <= |s| && calls1 == calls0 + DataCalls(s, lo, hi)
    requires use1 == use0 - set b | b in NonZero(s, lo, hi)
    ensures Freed(calls0, use0, calls1, use1, multiset(NonZero(s, lo, hi)))
  {
    hide Own, Sub, Shaped, Walk;
    DataCallsExpand(s, lo, hi);
    ExpandConcat(calls0, DataCalls(s, lo, hi));
    assert multiset(Expand(calls1)) == multiset(Expand(calls0)) + multiset(NonZero(s, lo, hi));
    assert Elements(multiset(NonZero(s, lo, hi))) == set b | b in NonZero(s, lo, hi);
  }

  lemma OneFreed(calls0: seq<Call>, use0: set<nat>, calls1: seq<Call>, use1: set<nat>, nr: nat)
    requires calls1 == calls0 + [Call(nr, 1)] && use1 == use0 - set b | b in Run(nr, 1)
    ensures Freed(calls0, use0, calls1, use1, multiset{nr})
  {
    RunOne(nr);
    ExpandOne(calls0, Call(nr, 1));
    assert Elements(multiset{nr}) == {nr};
  }

  lemma BlockFreed(d0: Disk, d1: Disk, nr: nat, own: multiset<nat>, m: multiset<nat>)
    requires m == own + multiset{nr} && Untouched(d0, d1, own, nr)
    ensures Untouched(d0, d1, m, nr)
  {
  }
}

/** Logical block numbers and paths in the ext2 block tree (io_uring/inode.c).

    A file's blocks hang off 15 inode slots: 12 direct ones and the roots of a
    single, a double and a triple indirect tree.  `ptrs` is the number of
    pointers in one indirect block.  It is a power of two in the source, so the
    source's shifts and masks by it are written here as `/` and `%`. */
module Ext2Path {

  import opened Arith

  const NDIR := 12
  const IND := 12
  const DIND := 13
  const TIND := 14
  const NSLOTS := 15

  /** The offsets of a path and the number of slots left in its last node. */
  datatype Path = Path(offsets: seq<nat>, boundary: int)

  function BlockToPath(ptrs: nat, iblock: int): Path
    requires ptrs >= NDIR
  {
    if iblock < 0 then Path([], 0)
    else if iblock < NDIR then
      Path([iblock], NDIR - 1 - Rem(iblock, ptrs))
    else
      var i := iblock - NDIR;
      if i < ptrs then
        Path([IND, i], ptrs - 1 - Rem(i, ptrs))
      else
        var i := i - ptrs;
        if i < Capacity(ptrs, 2) then
          Path([DIND, Quot(i, ptrs), Rem(i, ptrs)], ptrs - 1 - Rem(i, ptrs))
        else
          var i := i - Capacity(ptrs, 2);
          if Quot(Quot(i, ptrs), ptrs) < ptrs then
            Path([TIND, Quot(Quot(i, ptrs), ptrs), Rem(Quot(i, ptrs), ptrs), Rem(i, ptrs)], ptrs - 1 - Rem(i, ptrs))
          else
            Path([], 0)
  }

  /** How many levels of indirect blocks hang below inode slot `slot`. */
  function Height(slot: nat): nat {
    if slot < IND then 0 else if slot == IND then 1 else if slot == DIND then 2 else 3
  }

  /** Every component below the inode indexes one of the `ptrs` pointers. */
  ghost predicate InRange(ptrs: nat, q: seq<nat>) {
    forall i :: 0 <= i < |q| ==> q[i] < ptrs
  }

  /** A path that leads from an inode slot to a data pointer. */
  ghost predicate ValidPath(ptrs: nat, q: seq<nat>) {
    |q| >= 1 && q[0] < NSLOTS && |q| == 1 + Height(q[0]) && InRange(ptrs, q[1..])
  }

  /** Lexicographic order. */
  predicate Less(a: seq<nat>, b: seq<nat>) {
    |a| > 0 && |b| > 0 && (a[0] < b[0] || (a[0] == b[0] && Less(a[1..], b[1..])))
  }

  /** Number of data pointers below `h` levels of nodes. */
  function Capacity(ptrs: nat, h: nat): nat {
    if h == 0 then 1 else Capacity(ptrs, h - 1) * ptrs
  }

  /** Position of the leaf that `q` reaches, counted from the left. */
  function Position(ptrs: nat, q: seq<nat>): nat {
    if q == [] then 0 else Position(ptrs, q[..|q| - 1]) * ptrs + q[|q| - 1]
  }

  /** First logical block reached through inode slot `slot`. */
  function Base(ptrs: nat, slot: nat): nat {
    if slot < NDIR then slot
    else if slot == IND then NDIR
    else if slot == DIND then NDIR + ptrs
    else NDIR + ptrs + Capacity(ptrs, 2)
  }

  /** Logical block of a path: the inverse of `BlockToPath`. */
  function PathToBlock(ptrs: nat, q: seq<nat>): nat
    requires |q| >= 1
  {
    Base(ptrs, q[0]) + Position(ptrs, q[1..])
  }

  /** One past the last block that a triple indirect tree reaches. */
  function Limit(ptrs: nat): nat {
    NDIR + ptrs + Capacity(ptrs, 2) + Capacity(ptrs, 3)
  }

  lemma {:induction false} PositionBound(ptrs: nat, q: seq<nat>)
    requires InRange(ptrs, q)
    ensures Position(ptrs, q) < Capacity(ptrs, |q|)
  {
    if q != [] {
      var x, c := Position(ptrs, q[..|q| - 1]), Capacity(ptrs, |q| - 1);
      PositionBound(ptrs, q[..|q| - 1]);
      DigitOrder(ptrs, x, q[|q| - 1], c, 0);
    }
  }

  lemma {:induction false} LessSnoc(a: seq<nat>, b: seq<nat>)
    requires |a| == |b| > 0
    ensures var k := |a| - 1;
            Less(a, b) <==> Less(a[..k], b[..k]) || (a[..k] == b[..k] && a[k] < b[k])
  {
    var k := |a| - 1;
    if k > 0 {
      LessSnoc(a[1..], b[1..]);
      assert a[1..][..k - 1] == a[..k][1..] && b[1..][..k - 1] == b[..k][1..];
      assert a[..k] == [a[0]] + a[..k][1..] && b[..k] == [b[0]] + b[..k][1..];
    }
  }

  lemma {:induction false} PositionOrder(ptrs: nat, a: seq<nat>, b: seq<nat>)
    requires |a| == |b| && InRange(ptrs, a) && InRange(ptrs, b)
    ensures Less(a, b) <==> Position(ptrs, a) < Position(ptrs, b)
    ensures Position(ptrs, a) == Position(ptrs, b) ==> a == b
  {
    if a != [] {
      var k := |a| - 1;
      PositionOrder(ptrs, a[..k], b[..k]);
      LessSnoc(a, b);
      DigitOrder(ptrs, Position(ptrs, a[..k]), a[k], Position(ptrs, b[..k]), b[k]);
      assert a == a[..k] + [a[k]] && b == b[..k] + [b[k]];
    }
  }

  /** The last `h` digits of `i` in base `ptrs`, most significant first. */
  function Digits(ptrs: nat, i: nat, h: nat): (q: seq<nat>)
    requires ptrs > 0
    ensures |q| == h && InRange(ptrs, q)
    decreases h
  {
    if h == 0 then [] else Digits(ptrs, Quot(i, ptrs), h - 1) + [Rem(i, ptrs)]
  }

  lemma {:induction false} DigitsPosition(ptrs: nat, i: nat, h: nat)
    requires ptrs > 0 && i < Capacity(ptrs, h)
    ensures Position(ptrs, Digits(ptrs, i, h)) == i
    decreases h
  {
    if h > 0 {
      DivMod(i, ptrs);
      DivLess(i, ptrs, Capacity(ptrs, h - 1));
      DigitsPosition(ptrs, Quot(i, ptrs), h - 1);
      assert Digits(ptrs, i, h)[..h - 1] == Digits(ptrs, Quot(i, ptrs), h - 1);
    }
  }

  lemma Capacities(ptrs: nat)
    ensures Capacity(ptrs, 0) == 1 && Capacity(ptrs, 1) == ptrs
  {
    assert Capacity(ptrs, 1) == Capacity(ptrs, 0) * ptrs;
  }

  lemma CapacitySquare(ptrs: nat)
    ensures Capacity(ptrs, 2) == ptrs * ptrs
  {
    Capacities(ptrs);
    assert Capacity(ptrs, 2) == Capacity(ptrs, 1) * ptrs;
  }

  /** The path goes through `slot`, its offsets below the inode are the digits of
      the block's distance from the slot's first block, and the boundary is the
      distance of the last offset from the end of its node. */
  ghost predicate DigitPath(ptrs: nat, iblock: nat, slot: nat)
    requires ptrs >= NDIR
  {
    var r := BlockToPath(ptrs, iblock);
    var h := Height(slot);
    && slot < NSLOTS
    && 0 <= iblock - Base(ptrs, slot) < Capacity(ptrs, h)
    && r.offsets == [slot] + Digits(ptrs, iblock - Base(ptrs, slot), h)
    && r.boundary == (if h == 0 then NDIR else ptrs) - 1 - r.offsets[h]
  }

  lemma PathDigits(ptrs: nat, iblock: nat) returns (slot: nat)
    requires ptrs >= NDIR && iblock < Limit(ptrs)
    ensures DigitPath(ptrs, iblock, slot)
  {
    Capacities(ptrs);
    if iblock < NDIR {
      slot := iblock;
      DirectPath(ptrs, iblock);
    } else if iblock < NDIR + ptrs {
      slot := IND;
      IndirectPath(ptrs, iblock);
    } else if iblock < NDIR + ptrs + Capacity(ptrs, 2) {
      slot := DIND;
      TwoDigits(ptrs, iblock - NDIR - ptrs);
    } else {
      slot := TIND;
      ThreeDigits(ptrs, iblock - NDIR - ptrs - Capacity(ptrs, 2));
    }
  }

  lemma DirectPath(ptrs: nat, iblock: nat)
    requires ptrs >= NDIR && iblock < NDIR
    ensures DigitPath(ptrs, iblock, iblock)
  {
    Capacities(ptrs);
    DivUnique(iblock, ptrs, 0, iblock);
  }

  lemma IndirectPath(ptrs: nat, iblock: nat)
    requires ptrs >= NDIR && NDIR <= iblock < NDIR + ptrs
    ensures DigitPath(ptrs, iblock, IND)
  {
    Capacities(ptrs);
    var i := iblock - NDIR;
    DivUnique(i, ptrs, 0, i);
    assert Digits(ptrs, i, 1) == Digits(ptrs, Quot(i, ptrs), 0) + [Rem(i, ptrs)];
  }

  lemma TwoDigits(ptrs: nat, i: nat)
    requires ptrs > 0 && i < Capacity(ptrs, 2)
    ensures Digits(ptrs, i, 2) == [Quot(i, ptrs), Rem(i, ptrs)]
  {
    CapacitySquare(ptrs);
    DivLess(i, ptrs, ptrs);
    DivUnique(Quot(i, ptrs), ptrs, 0, Quot(i, ptrs));
    assert Digits(ptrs, Quot(i, ptrs), 1) == Digits(ptrs, Quot(Quot(i, ptrs), ptrs), 0) + [Quot(i, ptrs)];
    assert Digits(ptrs, i, 2) == Digits(ptrs, Quot(i, ptrs), 1) + [Rem(i, ptrs)];
  }

  lemma ThreeDigits(ptrs: nat, i: nat)
    requires ptrs > 0
    ensures Quot(Quot(i, ptrs), ptrs) < ptrs <==> i < Capacity(ptrs, 3)
    ensures i < Capacity(ptrs, 3) ==>
              Digits(ptrs, i, 3) == [Quot(Quot(i, ptrs), ptrs), Rem(Quot(i, ptrs), ptrs), Rem(i, ptrs)]
  {
    CapacitySquare(ptrs);
    assert Capacity(ptrs, 3) == Capacity(ptrs, 2) * ptrs;
    DivLess(i, ptrs, Capacity(ptrs, 2));
    DivLess(Quot(i, ptrs), ptrs, ptrs);
    if i < Capacity(ptrs, 3) {
      TwoDigits(ptrs, Quot(i, ptrs));
      assert Digits(ptrs, i, 3) == Digits(ptrs, Quot(i, ptrs), 2) + [Rem(i, ptrs)];
    }
  }

  /** `BlockToPath` of a block within reach is a valid path, and `PathToBlock`
      gives the block back. */
  lemma BlockRoundTrip(ptrs: nat, iblock: nat)
    requires ptrs >= NDIR && iblock < Limit(ptrs)
    ensures var p := BlockToPath(ptrs, iblock).offsets;
            ValidPath(ptrs, p) && PathToBlock(ptrs, p) == iblock
  {
    var slot := PathDigits(ptrs, iblock);
    var p := BlockToPath(ptrs, iblock).offsets;
    var i, h := iblock - Base(ptrs, slot), Height(slot);
    assert p[1..] == Digits(ptrs, i, h);
    DigitsPosition(ptrs, i, h);
  }

  /** A block has no path exactly when it is negative or out of reach. */
  lemma NoPath(ptrs: nat, iblock: int)
    requires ptrs >= NDIR
    ensures BlockToPath(ptrs, iblock).offsets == [] <==> !(0 <= iblock < Limit(ptrs))
  {
    Capacities(ptrs);
    if iblock >= NDIR + ptrs + Capacity(ptrs, 2) {
      ThreeDigits(ptrs, iblock - NDIR - ptrs - Capacity(ptrs, 2));
    }
  }

  /** The slots' ranges of blocks follow each other without a gap. */
  lemma SlotRanges(ptrs: nat, slot: nat)
    requires slot < NSLOTS
    ensures Base(ptrs, slot) + Capacity(ptrs, Height(slot))
            == if slot + 1 < NSLOTS then Base(ptrs, slot + 1) else Limit(ptrs)
  {
    Capacities(ptrs);
  }

  lemma BasesRise(ptrs: nat, s: nat, t: nat)
    requires ptrs > 0 && s < t < NSLOTS
    ensures Base(ptrs, s) + Capacity(ptrs, Height(s)) <= Base(ptrs, t)
    decreases t - s
  {
    SlotRanges(ptrs, s);
    if s + 1 < t {
      BasesRise(ptrs, s + 1, t);
    }
  }

  /** Block order is the lexicographic order of valid paths, both ways. */
  lemma PathBlockOrder(ptrs: nat, p: seq<nat>, q: seq<nat>)
    requires ptrs > 0 && ValidPath(ptrs, p) && ValidPath(ptrs, q)
    ensures Less(p, q) <==> PathToBlock(ptrs, p) < PathToBlock(ptrs, q)
    ensures PathToBlock(ptrs, p) == PathToBlock(ptrs, q) ==> p == q
    ensures PathToBlock(ptrs, p) < Limit(ptrs)
  {
    PositionBound(ptrs, p[1..]);
    PositionBound(ptrs, q[1..]);
    SlotRanges(ptrs, p[0]);
    if p[0] == q[0] {
      PositionOrder(ptrs, p[1..], q[1..]);
      assert p == [p[0]] + p[1..] && q == [q[0]] + q[1..];
    } else if p[0] < q[0] {
      BasesRise(ptrs, p[0], q[0]);
    } else {
      BasesRise(ptrs, q[0], p[0]);
    }
    if p[0] + 1 < NSLOTS && p[0] != TIND {
      BasesRise(ptrs, p[0], TIND);
      SlotRanges(ptrs, TIND);
    }
  }

  /** `PathToBlock` followed by `BlockToPath` gives the path back. */
  lemma PathRoundTrip(ptrs: nat, q: seq<nat>)
    requires ptrs >= NDIR && ValidPath(ptrs, q)
    ensures PathToBlock(ptrs, q) < Limit(ptrs)
    ensures BlockToPath(ptrs, PathToBlock(ptrs, q)).offsets == q
  {
    PathBlockOrder(ptrs, q, q);
    BlockRoundTrip(ptrs, PathToBlock(ptrs, q));
    PathBlockOrder(ptrs, q, BlockToPath(ptrs, PathToBlock(ptrs, q)).offsets);
  }

  /** `path` with its last component moved `j` slots to the right. */
  function Bump(path: seq<nat>, j: nat): seq<nat>
    requires |path| >= 1
  {
    path[|path| - 1 := path[|path| - 1] + j]
  }

  /** `boundary` counts the slots that remain in the node of the last pointer:
      moving right by up to `boundary` stays in that node, and the count is the
      distance to the node's end. */
  lemma BoundaryCounts(ptrs: nat, iblock: nat, j: nat)
    requires ptrs >= NDIR && iblock < Limit(ptrs)
    ensures var r := BlockToPath(ptrs, iblock);
            && ValidPath(ptrs, r.offsets)
            && var last := |r.offsets| - 1;
            && 0 <= r.boundary
            && r.offsets[last] + r.boundary + 1 == (if last == 0 then NDIR else ptrs)
            && (j <= r.boundary ==>
                  && iblock + j < Limit(ptrs)
                  && BlockToPath(ptrs, iblock + j).offsets == Bump(r.offsets, j))
  {
    BlockRoundTrip(ptrs, iblock);
    var slot := PathDigits(ptrs, iblock);
    var r := BlockToPath(ptrs, iblock);
    var q, last := r.offsets, |r.offsets| - 1;
    if j <= r.boundary {
      var b := Bump(q, j);
      assert ValidPath(ptrs, b);
      assert PathToBlock(ptrs, b) == iblock + j by {
        if last == 0 {
          assert b == [q[0] + j] && b[1..] == [] && q[1..] == [];
        } else {
          assert b[1..][..last - 1] == q[1..][..last - 1];
        }
      }
      PathRoundTrip(ptrs, b);
    }
  }
}

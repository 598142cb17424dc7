/** Reference counts of shared filter chains (io_uring/bpffilter.c): filters are
    never changed except for their count, new ones are put in front of old ones, and
    tables share the tails. */
module FilterRefs {

  /** What a table slot or the `next` field of a filter holds.  `Dummy` is the static
      filter that denies everything. */
  datatype Ref = Nil | Dummy | Node(id: nat)

  /** A filter by its number, in the order of allocation; `Gone` once it was freed. */
  datatype Filter = Gone | Filter(refs: int, prog: nat, next: Ref)

  /** A table with one slot for each opcode; `NoTable` once it was freed. */
  datatype Table = NoTable | Table(refs: int, slots: seq<Ref>)

  function One(r: Ref, f: nat): nat {
    if r == Node(f) then 1 else 0
  }

  function CountIn(slots: seq<Ref>, f: nat): nat {
    if slots == [] then 0 else CountIn(slots[..|slots| - 1], f) + One(slots[|slots| - 1], f)
  }

  function InTable(t: Table, f: nat): nat {
    if t.Table? then CountIn(t.slots, f) else 0
  }

  /** How many slots of live tables hold filter `f`. */
  function SlotCount(ts: seq<Table>, f: nat): nat {
    if ts == [] then 0 else SlotCount(ts[..|ts| - 1], f) + InTable(ts[|ts| - 1], f)
  }

  function InNext(g: Filter, f: nat): nat {
    if g.Filter? then One(g.next, f) else 0
  }

  /** How many live filters have filter `f` as their `next`. */
  function NextCount(fs: seq<Filter>, f: nat): nat {
    if fs == [] then 0 else NextCount(fs[..|fs| - 1], f) + InNext(fs[|fs| - 1], f)
  }

  ghost predicate Live(fs: seq<Filter>, r: Ref) {
    r.Node? ==> r.id < |fs| && fs[r.id].Filter?
  }

  /** Every reference count is positive and exact; `held` is a reference that the code
      has in a local variable and is about to drop. */
  ghost predicate Counted(fs: seq<Filter>, ts: seq<Table>, held: Ref) {
    forall f :: 0 <= f < |fs| && fs[f].Filter? ==>
      fs[f].refs > 0 && fs[f].refs == SlotCount(ts, f) + NextCount(fs, f) + One(held, f)
  }

  ghost predicate Older(g: nat, r: Ref) {
    r.Node? ==> r.id < g
  }

  /** Nothing that can be reached has been freed, and chains lead to older filters. */
  ghost predicate Closed(fs: seq<Filter>, ts: seq<Table>, held: Ref) {
    && (forall g :: 0 <= g < |fs| && fs[g].Filter? ==> Live(fs, fs[g].next) && Older(g, fs[g].next))
    && (forall t, i :: 0 <= t < |ts| && ts[t].Table? && 0 <= i < |ts[t].slots| ==> Live(fs, ts[t].slots[i]))
    && Live(fs, held)
  }

  ghost predicate Exact(fs: seq<Filter>, ts: seq<Table>, held: Ref) {
    Counted(fs, ts, held) && Closed(fs, ts, held)
  }

  // ----- counting -----

  lemma {:induction false} CountUpdate(slots: seq<Ref>, i: nat, r: Ref, f: nat)
    requires i < |slots|
    ensures CountIn(slots[i := r], f) == CountIn(slots, f) - One(slots[i], f) + One(r, f)
    decreases |slots|
  {
    var n := |slots| - 1;
    if i == n {
      assert slots[i := r][..n] == slots[..n];
    } else {
      CountUpdate(slots[..n], i, r, f);
      assert slots[i := r][..n] == slots[..n][i := r];
    }
  }

  lemma {:induction false} SlotUpdate(ts: seq<Table>, t: nat, T: Table, f: nat)
    requires t < |ts|
    ensures SlotCount(ts[t := T], f) == SlotCount(ts, f) - InTable(ts[t], f) + InTable(T, f)
    decreases |ts|
  {
    var n := |ts| - 1;
    if t == n {
      assert ts[t := T][..n] == ts[..n];
    } else {
      SlotUpdate(ts[..n], t, T, f);
      assert ts[t := T][..n] == ts[..n][t := T];
    }
  }

  lemma {:induction false} NextUpdate(fs: seq<Filter>, g: nat, F: Filter, f: nat)
    requires g < |fs|
    ensures NextCount(fs[g := F], f) == NextCount(fs, f) - InNext(fs[g], f) + InNext(F, f)
    decreases |fs|
  {
    var n := |fs| - 1;
    if g == n {
      assert fs[g := F][..n] == fs[..n];
    } else {
      NextUpdate(fs[..n], g, F, f);
      assert fs[g := F][..n] == fs[..n][g := F];
    }
  }

  lemma NextAppend(fs: seq<Filter>, F: Filter, f: nat)
    ensures NextCount(fs + [F], f) == NextCount(fs, f) + InNext(F, f)
  {
    assert (fs + [F])[..|fs|] == fs;
  }

  lemma SlotAppend(ts: seq<Table>, T: Table, f: nat)
    ensures SlotCount(ts + [T], f) == SlotCount(ts, f) + InTable(T, f)
  {
    assert (ts + [T])[..|ts|] == ts;
  }

  /** A reference that exists is counted. */
  lemma {:induction false} CountAt(slots: seq<Ref>, i: nat, f: nat)
    requires i < |slots|
    ensures slots[i] == Node(f) ==> CountIn(slots, f) >= 1
    decreases |slots|
  {
    if i < |slots| - 1 {
      CountAt(slots[..|slots| - 1], i, f);
    }
  }

  lemma {:induction false} SlotCountAt(ts: seq<Table>, t: nat, i: nat, f: nat)
    requires t < |ts| && ts[t].Table? && i < |ts[t].slots|
    ensures ts[t].slots[i] == Node(f) ==> SlotCount(ts, f) >= 1
    decreases |ts|
  {
    if t == |ts| - 1 {
      CountAt(ts[t].slots, i, f);
    } else {
      SlotCountAt(ts[..|ts| - 1], t, i, f);
    }
  }

  lemma {:induction false} NextCountAt(fs: seq<Filter>, g: nat, f: nat)
    requires g < |fs| && fs[g].Filter?
    ensures fs[g].next == Node(f) ==> NextCount(fs, f) >= 1
    decreases |fs|
  {
    if g < |fs| - 1 {
      NextCountAt(fs[..|fs| - 1], g, f);
    }
  }

  /** A filter that does not exist yet is referenced nowhere. */
  lemma {:induction false} CountNone(slots: seq<Ref>, f: nat)
    requires forall i :: 0 <= i < |slots| ==> slots[i] != Node(f)
    ensures CountIn(slots, f) == 0
  {
    if slots != [] {
      CountNone(slots[..|slots| - 1], f);
    }
  }

  lemma {:induction false} SlotCountNone(ts: seq<Table>, f: nat)
    requires forall t, i :: 0 <= t < |ts| && ts[t].Table? && 0 <= i < |ts[t].slots| ==> ts[t].slots[i] != Node(f)
    ensures SlotCount(ts, f) == 0
  {
    if ts != [] {
      var n := |ts| - 1;
      forall t, i | 0 <= t < n && ts[..n][t].Table? && 0 <= i < |ts[..n][t].slots|
          ensures ts[..n][t].slots[i] != Node(f) {
        assert ts[..n][t] == ts[t];
      }
      SlotCountNone(ts[..n], f);
      if ts[n].Table? {
        CountNone(ts[n].slots, f);
      }
    }
  }

  lemma {:induction false} NextCountNone(fs: seq<Filter>, f: nat)
    requires forall g :: 0 <= g < |fs| && fs[g].Filter? ==> fs[g].next != Node(f)
    ensures NextCount(fs, f) == 0
  {
    if fs != [] {
      NextCountNone(fs[..|fs| - 1], f);
    }
  }

  // ----- the steps -----

  /** A new filter goes in front of the chain in a slot. */
  lemma InsertExact(fs: seq<Filter>, ts: seq<Table>, t: nat, op: nat, prog: nat)
    requires Exact(fs, ts, Nil) && t < |ts| && ts[t].Table? && op < |ts[t].slots|
    ensures Exact(fs + [Filter(1, prog, ts[t].slots[op])], ts[t := ts[t].(slots := ts[t].slots[op := Node(|fs|)])], Nil)
  {
    var n, rest := |fs|, ts[t].slots[op];
    var F, T := Filter(1, prog, rest), ts[t].(slots := ts[t].slots[op := Node(n)]);
    var fs', ts' := fs + [F], ts[t := T];
    assert Live(fs, rest);
    forall f | 0 <= f < |fs'| && fs'[f].Filter?
      ensures fs'[f].refs > 0 && fs'[f].refs == SlotCount(ts', f) + NextCount(fs', f)
    {
      NextAppend(fs, F, f);
      SlotUpdate(ts, t, T, f);
      CountUpdate(ts[t].slots, op, Node(n), f);
      if f == n {
        Unborn(fs, ts);
      }
    }
    forall g | 0 <= g < |fs'| && fs'[g].Filter? ensures Live(fs', fs'[g].next) && Older(g, fs'[g].next) {
      if g < n {
        assert Live(fs, fs[g].next) && Older(g, fs[g].next);
      }
    }
    forall u, i | 0 <= u < |ts'| && ts'[u].Table? && 0 <= i < |ts'[u].slots| ensures Live(fs', ts'[u].slots[i]) {
      if u != t || i != op {
        assert Live(fs, ts[u].slots[i]);
      }
    }
  }

  lemma Unborn(fs: seq<Filter>, ts: seq<Table>)
    requires Closed(fs, ts, Nil)
    ensures SlotCount(ts, |fs|) == 0 && NextCount(fs, |fs|) == 0
  {
    forall t, i | 0 <= t < |ts| && ts[t].Table? && 0 <= i < |ts[t].slots| ensures ts[t].slots[i] != Node(|fs|) {
      assert Live(fs, ts[t].slots[i]);
    }
    SlotCountNone(ts, |fs|);
    forall g | 0 <= g < |fs| && fs[g].Filter? ensures fs[g].next != Node(|fs|) {
      assert Live(fs, fs[g].next);
    }
    NextCountNone(fs, |fs|);
  }

  /** A slot that holds no filter gets a reference, which is taken from the local
      variable. */
  lemma StoreExact(fs: seq<Filter>, ts: seq<Table>, held: Ref, t: nat, i: nat)
    requires Exact(fs, ts, held) && t < |ts| && ts[t].Table? && i < |ts[t].slots| && !ts[t].slots[i].Node?
    ensures Exact(fs, ts[t := ts[t].(slots := ts[t].slots[i := held])], Nil)
  {
    var T := ts[t].(slots := ts[t].slots[i := held]);
    var ts' := ts[t := T];
    forall f | 0 <= f < |fs| && fs[f].Filter? ensures fs[f].refs == SlotCount(ts', f) + NextCount(fs, f) {
      SlotUpdate(ts, t, T, f);
      CountUpdate(ts[t].slots, i, held, f);
    }
    forall u, j | 0 <= u < |ts'| && ts'[u].Table? && 0 <= j < |ts'[u].slots| ensures Live(fs, ts'[u].slots[j]) {
      if u != t || j != i {
        assert Live(fs, ts[u].slots[j]);
      }
    }
  }

  /** A slot gives up its reference to the local variable. */
  lemma LoadExact(fs: seq<Filter>, ts: seq<Table>, t: nat, i: nat)
    requires Exact(fs, ts, Nil) && t < |ts| && ts[t].Table? && i < |ts[t].slots|
    ensures Exact(fs, ts[t := ts[t].(slots := ts[t].slots[i := Nil])], ts[t].slots[i])
  {
    var T := ts[t].(slots := ts[t].slots[i := Nil]);
    var ts' := ts[t := T];
    assert Live(fs, ts[t].slots[i]);
    forall f | 0 <= f < |fs| && fs[f].Filter?
        ensures fs[f].refs == SlotCount(ts', f) + NextCount(fs, f) + One(ts[t].slots[i], f) {
      SlotUpdate(ts, t, T, f);
      CountUpdate(ts[t].slots, i, Nil, f);
    }
    forall u, j | 0 <= u < |ts'| && ts'[u].Table? && 0 <= j < |ts'[u].slots| ensures Live(fs, ts'[u].slots[j]) {
      if u != t || j != i {
        assert Live(fs, ts[u].slots[j]);
      }
    }
  }

  /** Taking one more reference. */
  lemma GrabExact(fs: seq<Filter>, ts: seq<Table>, f: nat)
    requires Exact(fs, ts, Nil) && f < |fs| && fs[f].Filter?
    ensures Exact(fs[f := fs[f].(refs := fs[f].refs + 1)], ts, Node(f))
  {
    RecountClosed(fs, ts, Node(f), f, fs[f].refs + 1);
    Recount(fs, f, fs[f].refs + 1);
  }

  lemma Recount(fs: seq<Filter>, f: nat, refs: int)
    requires f < |fs| && fs[f].Filter?
    ensures forall g :: NextCount(fs[f := fs[f].(refs := refs)], g) == NextCount(fs, g)
  {
    forall g ensures NextCount(fs[f := fs[f].(refs := refs)], g) == NextCount(fs, g) {
      NextUpdate(fs, f, fs[f].(refs := refs), g);
    }
  }

  lemma RecountClosed(fs: seq<Filter>, ts: seq<Table>, held: Ref, f: nat, refs: int)
    requires Closed(fs, ts, Nil) && f < |fs| && fs[f].Filter? && Live(fs, held)
    ensures Closed(fs[f := fs[f].(refs := refs)], ts, held)
  {
    var fs' := fs[f := fs[f].(refs := refs)];
    forall g | 0 <= g < |fs'| && fs'[g].Filter? ensures Live(fs', fs'[g].next) && Older(g, fs'[g].next) {
      assert Live(fs, fs[g].next) && Older(g, fs[g].next);
    }
    forall u, j | 0 <= u < |ts| && ts[u].Table? && 0 <= j < |ts[u].slots| ensures Live(fs', ts[u].slots[j]) {
      assert Live(fs, ts[u].slots[j]);
    }
  }

  /** Dropping a reference to a filter that others refer to as well. */
  lemma DropExact(fs: seq<Filter>, ts: seq<Table>, f: nat)
    requires Exact(fs, ts, Node(f)) && fs[f].refs > 1
    ensures Exact(fs[f := fs[f].(refs := fs[f].refs - 1)], ts, Nil)
  {
    assert Live(fs, Node(f));
    RecountClosed(fs, ts, Nil, f, fs[f].refs - 1);
    Recount(fs, f, fs[f].refs - 1);
  }

  /** Dropping the last reference: the filter goes, and its reference to the next one
      passes to the local variable. */
  lemma FreeExact(fs: seq<Filter>, ts: seq<Table>, f: nat)
    requires Exact(fs, ts, Node(f)) && fs[f].refs == 1
    ensures Exact(fs[f := Gone], ts, fs[f].next)
  {
    var fs' := fs[f := Gone];
    assert Live(fs, Node(f)) && Live(fs, fs[f].next) && Older(f, fs[f].next);
    forall g | 0 <= g < |fs'| && fs'[g].Filter?
      ensures fs'[g].refs == SlotCount(ts, g) + NextCount(fs', g) + One(fs[f].next, g)
      ensures Live(fs', fs'[g].next) && Older(g, fs'[g].next)
    {
      NextUpdate(fs, f, Gone, g);
      assert Live(fs, fs[g].next) && Older(g, fs[g].next);
      NextCountAt(fs, g, f);
    }
    forall u, j | 0 <= u < |ts| && ts[u].Table? && 0 <= j < |ts[u].slots| ensures Live(fs', ts[u].slots[j]) {
      assert Live(fs, ts[u].slots[j]);
      SlotCountAt(ts, u, j, f);
    }
  }

  /** A table without references can be freed, and one can be added. */
  lemma TableFreed(fs: seq<Filter>, ts: seq<Table>, t: nat)
    requires Exact(fs, ts, Nil) && t < |ts| && ts[t].Table? && forall i :: 0 <= i < |ts[t].slots| ==>
        !ts[t].slots[i].Node?
    ensures Exact(fs, ts[t := NoTable], Nil)
  {
    var ts' := ts[t := NoTable];
    forall f | 0 <= f < |fs| && fs[f].Filter? ensures fs[f].refs == SlotCount(ts', f) + NextCount(fs, f) {
      SlotUpdate(ts, t, NoTable, f);
      CountNone(ts[t].slots, f);
    }
    forall u, j | 0 <= u < |ts'| && ts'[u].Table? && 0 <= j < |ts'[u].slots| ensures Live(fs, ts'[u].slots[j]) {
      assert ts'[u] == ts[u];
    }
  }

  lemma TableAdded(fs: seq<Filter>, ts: seq<Table>, T: Table)
    requires Exact(fs, ts, Nil) && T.Table? && forall i :: 0 <= i < |T.slots| ==> !T.slots[i].Node?
    ensures Exact(fs, ts + [T], Nil)
  {
    var ts' := ts + [T];
    forall f | 0 <= f < |fs| && fs[f].Filter? ensures fs[f].refs == SlotCount(ts', f) + NextCount(fs, f) {
      SlotAppend(ts, T, f);
      CountNone(T.slots, f);
    }
    forall u, j | 0 <= u < |ts'| && ts'[u].Table? && 0 <= j < |ts'[u].slots| ensures Live(fs, ts'[u].slots[j]) {
      if u < |ts| {
        assert ts'[u] == ts[u];
      }
    }
  }

  lemma TableRecount(fs: seq<Filter>, ts: seq<Table>, t: nat, refs: int)
    requires Exact(fs, ts, Nil) && t < |ts| && ts[t].Table?
    ensures Exact(fs, ts[t := ts[t].(refs := refs)], Nil)
  {
    var ts' := ts[t := ts[t].(refs := refs)];
    forall f | 0 <= f < |fs| && fs[f].Filter? ensures fs[f].refs == SlotCount(ts', f) + NextCount(fs, f) {
      SlotUpdate(ts, t, ts'[t], f);
    }
    forall u, j | 0 <= u < |ts'| && ts'[u].Table? && 0 <= j < |ts'[u].slots| ensures Live(fs, ts'[u].slots[j]) {
      assert ts'[u].slots == ts[u].slots;
    }
  }

  /** When no table is left, no filter is. */
  lemma {:induction false} AllFreed(fs: seq<Filter>, ts: seq<Table>, n: nat)
    requires Exact(fs, ts, Nil) && (forall t :: 0 <= t < |ts| ==> ts[t] == NoTable) && n <= |fs|
    requires forall f :: n <= f < |fs| ==> fs[f] == Gone
    ensures forall f :: 0 <= f < |fs| ==> fs[f] == Gone
    decreases n
  {
    if n > 0 {
      var f := n - 1;
      if fs[f].Filter? {
        SlotCountNone(ts, f);
        forall g | 0 <= g < |fs| && fs[g].Filter? ensures fs[g].next != Node(f) {
          assert Older(g, fs[g].next);
        }
        NextCountNone(fs, f);
      }
      AllFreed(fs, ts, n - 1);
    }
  }
}

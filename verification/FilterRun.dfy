/** io_uring's filter sets (io_uring/bpffilter.c) as steps on a state, and what holds in every run. */
module FilterRun {
  import opened FilterRefs
  import opened FilterVerdict

  /** All filters, tables and restrictions there are; `freed` lists the filters in the order in which they were freed.
      `orphans` are what restrictions were before a clone overwrote them; nobody puts their references any more. */
  datatype State = State(ops: nat, filters: seq<Filter>, tables: seq<Table>, res: seq<Restriction>, freed: seq<nat>,
      orphans: seq<Restriction>)

  datatype Action = Create
                  | Clone(dst: nat, src: nat)
                  | Register(r: nat, op: nat, prog: nat, denyRest: bool, noTable: bool, noFilter: bool)
                  | Put(r: nat)
                  | Reclaim(t: nat)

  ghost predicate Good(s: State) {
    && Exact(s.filters, s.tables, Nil) && Owned(s.ops, s.tables, Everyone(s)) && Logged(s.filters, s.freed)
    && forall i :: 0 <= i < |s.orphans| ==> s.orphans[i].Restriction? && s.orphans[i].table >= 0
  }

  /** All who count as owners of tables. */
  function Everyone(s: State): (rs: seq<Restriction>)
    ensures |rs| == |s.res| + |s.orphans| && forall i :: 0 <= i < |s.res| ==> rs[i] == s.res[i]
  {
    s.res + s.orphans
  }

  predicate Alive(s: State, r: nat) {
    r < |s.res| && s.res[r].Restriction? && -1 <= s.res[r].table < |s.tables|
    && (s.res[r].table >= 0 ==> s.tables[s.res[r].table].Table? && |s.tables[s.res[r].table].slots| == s.ops)
  }

  /** The restrictions exist, and a table that is freed has no owner. */
  predicate Enabled(s: State, a: Action) {
    match a
    case Create => true
    case Clone(dst, src) => Alive(s, dst) && Alive(s, src)
    case Register(r, op, _, _, _, _) => Alive(s, r) && op < s.ops
    case Put(r) => Alive(s, r)
    case Reclaim(t) => t < |s.tables| && s.tables[t].Table? && s.tables[t].refs == 0
  }

  // ----- taking and dropping references -----

  function Grabbed(fs: seq<Filter>, r: Ref): (fs': seq<Filter>)
    ensures |fs'| == |fs|
  {
    if r.Node? && r.id < |fs| && fs[r.id].Filter? then fs[r.id := fs[r.id].(refs := fs[r.id].refs + 1)] else fs
  }

  /** One more reference for each of the first `n` slots. */
  function GrabbedAll(fs: seq<Filter>, slots: seq<Ref>, n: nat): (fs': seq<Filter>)
    requires n <= |slots|
    ensures |fs'| == |fs|
  {
    if n == 0 then fs else Grabbed(GrabbedAll(fs, slots, n - 1), slots[n - 1])
  }

  /** The first `n` of the slots, and none after. */
  function Copied(slots: seq<Ref>, n: nat): seq<Ref> {
    seq(|slots|, o requires 0 <= o < |slots| => if o < n then slots[o] else Nil)
  }

  datatype Memory = Memory(filters: seq<Filter>, freed: seq<nat>)

  /** A reference is dropped; a filter without references is freed, and its own reference dropped. */
  function Released(m: Memory, r: Ref): (m': Memory)
    ensures |m'.filters| == |m.filters|
    decreases Rank(r)
  {
    if !r.Node? || r.id >= |m.filters| || !m.filters[r.id].Filter? then m
    else
      var f := m.filters[r.id];
      if f.refs > 1 then m.(filters := m.filters[r.id := f.(refs := f.refs - 1)])
      else
        var rest := Memory(m.filters[r.id := Gone], m.freed + [r.id]);
        if Rank(f.next) < Rank(r) then Released(rest, f.next) else rest
  }

  /** The references of the first `n` slots are dropped. */
  function ReleasedAll(m: Memory, slots: seq<Ref>, n: nat): (m': Memory)
    requires n <= |slots|
    ensures |m'.filters| == |m.filters|
  {
    if n == 0 then m else Released(ReleasedAll(m, slots, n - 1), slots[n - 1])
  }

  function Emptied(slots: seq<Ref>, n: nat): seq<Ref> {
    seq(|slots|, o requires 0 <= o < |slots| => if o < n then Nil else slots[o])
  }

  lemma GrabbedExact(fs: seq<Filter>, freed: seq<nat>, ts: seq<Table>, r: Ref)
    requires Exact(fs, ts, Nil) && Logged(fs, freed) && Live(fs, r)
    ensures Exact(Grabbed(fs, r), ts, r) && Logged(Grabbed(fs, r), freed) && Kept(fs, Grabbed(fs, r))
  {
    if r.Node? {
      GrabExact(fs, ts, r.id);
      FilterRecounted(fs, freed, r.id, fs[r.id].refs + 1);
    }
  }

  /** A table that shares all chains with table `t` is added, slot by slot. */
  lemma {:induction false} CopyExact(fs: seq<Filter>, freed: seq<nat>, ts: seq<Table>, t: nat, n: nat)
    requires Exact(fs, ts, Nil) && Logged(fs, freed) && t < |ts| && ts[t].Table? && n <= |ts[t].slots|
    ensures var fs', ts' := GrabbedAll(fs, ts[t].slots, n), ts + [Table(1, Copied(ts[t].slots, n))];
            Exact(fs', ts', Nil) && Logged(fs', freed) && Kept(fs, fs')
  {
    hide Exact, Logged, Kept;
    var slots := ts[t].slots;
    if n == 0 {
      TableAdded(fs, ts, Table(1, Copied(slots, 0)));
      KeptAll(fs);
    } else {
      CopyExact(fs, freed, ts, t, n - 1);
      var fs1, ts1 := GrabbedAll(fs, slots, n - 1), ts + [Table(1, Copied(slots, n - 1))];
      SlotsLive(fs1, ts1, t, n - 1);
      GrabbedExact(fs1, freed, ts1, slots[n - 1]);
      var fs2 := Grabbed(fs1, slots[n - 1]);
      StoreExact(fs2, ts1, slots[n - 1], |ts|, n - 1);
      assert Copied(slots, n - 1)[n - 1 := slots[n - 1]] == Copied(slots, n);
      assert ts1[|ts| := Table(1, Copied(slots, n))] == ts + [Table(1, Copied(slots, n))];
      KeptTwice(fs, fs1, fs2);
    }
  }

  lemma SlotsLive(fs: seq<Filter>, ts: seq<Table>, t: nat, i: nat)
    requires Exact(fs, ts, Nil) && t < |ts| && ts[t].Table? && i < |ts[t].slots|
    ensures Live(fs, ts[t].slots[i])
  {
  }

  lemma {:induction false} ReleasedExact(m: Memory, ts: seq<Table>, r: Ref)
    requires Exact(m.filters, ts, r) && Logged(m.filters, m.freed)
    ensures var m' := Released(m, r);
            Exact(m'.filters, ts, Nil) && Logged(m'.filters, m'.freed) && Kept(m.filters, m'.filters)
                && m.freed <= m'.freed
    decreases Rank(r)
  {
    hide Exact, Logged, Kept;
    HeldLive(m.filters, ts, r);
    KeptAll(m.filters);
    if r.Node? {
      var f := m.filters[r.id];
      if f.refs > 1 {
        DropExact(m.filters, ts, r.id);
        FilterRecounted(m.filters, m.freed, r.id, f.refs - 1);
      } else {
        var rest := Memory(m.filters[r.id := Gone], m.freed + [r.id]);
        FreeExact(m.filters, ts, r.id);
        FilterFreed(m.filters, m.freed, r.id);
        ReleasedExact(rest, ts, f.next);
        KeptTwice(m.filters, rest.filters, Released(rest, f.next).filters);
      }
    } else if r == Dummy {
      DummyHeld(m.filters, ts);
    }
  }

  lemma {:induction false} ReleasedAllExact(m: Memory, ts: seq<Table>, t: nat, n: nat)
    requires Exact(m.filters, ts, Nil) && Logged(m.filters, m.freed) && t < |ts| && ts[t].Table? && n <= |ts[t].slots|
    ensures var m', ts' := ReleasedAll(m, ts[t].slots, n), ts[t := ts[t].(slots := Emptied(ts[t].slots, n))];
            Exact(m'.filters, ts', Nil) && Logged(m'.filters, m'.freed) && Kept(m.filters, m'.filters)
                && m.freed <= m'.freed
  {
    hide Exact, Logged, Kept, Released;
    var slots := ts[t].slots;
    if n == 0 {
      assert Emptied(slots, 0) == slots;
      assert ts[t := ts[t].(slots := slots)] == ts;
      KeptAll(m.filters);
    } else {
      ReleasedAllExact(m, ts, t, n - 1);
      var m1, ts1 := ReleasedAll(m, slots, n - 1), ts[t := ts[t].(slots := Emptied(slots, n - 1))];
      LoadExact(m1.filters, ts1, t, n - 1);
      assert Emptied(slots, n - 1)[n - 1 := Nil] == Emptied(slots, n);
      assert ts1[t := ts1[t].(slots := Emptied(slots, n))] == ts[t := ts[t].(slots := Emptied(slots, n))];
      ReleasedExact(m1, ts[t := ts[t].(slots := Emptied(slots, n))], slots[n - 1]);
      KeptTwice(m.filters, m1.filters, Released(m1, slots[n - 1]).filters);
    }
  }

  // ----- the steps -----

  function Recounted(ts: seq<Table>, t: nat, d: int): (ts': seq<Table>)
    requires t < |ts| && ts[t].Table?
    ensures |ts'| == |ts|
  {
    ts[t := ts[t].(refs := ts[t].refs + d)]
  }

  function Cloned(s: State, dst: nat, src: nat): State
    requires Alive(s, dst) && Alive(s, src)
  {
    var t := s.res[src].table;
    if t == -1 || s.tables[t].refs == 0 then s
    else s.(tables := Recounted(s.tables, t, 1), res := s.res[dst := Restriction(t, true)],
            orphans := if s.res[dst].table >= 0 then s.orphans + [s.res[dst]] else s.orphans)
  }

  /** The restriction may change its table in place. */
  predicate InPlace(r: Restriction) {
    r.Restriction? && r.table >= 0 && !r.cow
  }

  /** The table to change: the restriction's own, a new one, or a copy of the shared one. */
  function Target(s: State, r: nat): (t: nat)
    requires Alive(s, r)
  {
    if InPlace(s.res[r]) then s.res[r].table else |s.tables|
  }

  function Prepared(s: State, r: nat): (s': State)
    requires Alive(s, r)
    ensures Target(s, r) < |s'.tables| && s'.tables[Target(s, r)].Table? && |s'.tables[Target(s, r)].slots| == s.ops
    ensures s'.res == s.res && s'.orphans == s.orphans && |s.tables| <= |s'.tables|
  {
    var t := s.res[r].table;
    if InPlace(s.res[r]) then s
    else if t == -1 then s.(tables := s.tables + [Table(1, seq(s.ops, _ => Nil))])
    else s.(filters := GrabbedAll(s.filters, s.tables[t].slots, s.ops),
        tables := s.tables + [Table(1, s.tables[t].slots)])
  }

  /** The restriction takes its new table and puts the old one. */
  function Adopted(s: State, r: nat, n: nat): (s': State)
    requires Alive(s, r) && n < |s.tables|
    ensures |s'.tables| == |s.tables|
    ensures s.tables[n].Table? ==> s'.tables[n].Table? && s'.tables[n].slots == s.tables[n].slots
  {
    var t := s.res[r].table;
    if t >= 0 && t != n then s.(tables := Recounted(s.tables, t, -1), res := s.res[r := Restriction(n, false)])
    else s.(res := s.res[r := s.res[r].(table := n)])
  }

  /** The slots once filter `f` is in front of the chain of `op`; with DENY_REST the empty ones among
      the first `m` deny. */
  function NewSlots(slots: seq<Ref>, op: nat, f: nat, m: nat): seq<Ref> {
    seq(|slots|, o requires 0 <= o < |slots| =>
      if o == op then Node(f) else if o < m && slots[o] == Nil then Dummy else slots[o])
  }

  function Inserted(s: State, n: nat, op: nat, prog: nat, denyRest: bool): State
    requires n < |s.tables| && s.tables[n].Table? && op < |s.tables[n].slots|
  {
    var slots := s.tables[n].slots;
    s.(filters := s.filters + [Filter(1, prog, slots[op])],
       tables := s.tables[n := s.tables[n].(slots := NewSlots(slots, op, |s.filters|, if denyRest then |slots|
           else 0))])
  }

  /** Whether a registration finds memory for the table and the filter that it needs. */
  predicate Succeeds(s: State, r: nat, noTable: bool, noFilter: bool)
    requires Alive(s, r)
  {
    !noFilter && (InPlace(s.res[r]) || !noTable)
  }

  /** Without memory for the filter a table made for it is put again. */
  function Registered(s: State, r: nat, op: nat, prog: nat, denyRest: bool, noTable: bool, noFilter: bool): State
    requires Alive(s, r) && op < s.ops
  {
    var n, s1 := Target(s, r), Prepared(s, r);
    if InPlace(s.res[r]) && noFilter then s
    else if !InPlace(s.res[r]) && noTable then s
    else if noFilter then s1.(tables := Recounted(s1.tables, n, -1))
    else Inserted(Adopted(s1, r, n), n, op, prog, denyRest)
  }

  function PutAway(s: State, r: nat): State
    requires Alive(s, r)
  {
    var t := s.res[r].table;
    s.(tables := if t >= 0 then Recounted(s.tables, t, -1) else s.tables, res := s.res[r := Dropped])
  }

  function Reclaimed(s: State, t: nat): State
    requires t < |s.tables| && s.tables[t].Table?
  {
    var m := ReleasedAll(Memory(s.filters, s.freed), s.tables[t].slots, |s.tables[t].slots|);
    s.(filters := m.filters, freed := m.freed, tables := s.tables[t := NoTable])
  }

  function Do(s: State, a: Action): State
    requires Enabled(s, a)
  {
    match a
    case Create => s.(res := s.res + [Restriction(-1, false)])
    case Clone(dst, src) => Cloned(s, dst, src)
    case Register(r, op, prog, denyRest, noTable, noFilter) => Registered(s, r, op, prog, denyRest, noTable, noFilter)
    case Put(r) => PutAway(s, r)
    case Reclaim(t) => Reclaimed(s, t)
  }

  // ----- what each step keeps and means -----

  /** The step is a clone onto restriction `q` that overwrites the filters it has. */
  predicate Overwrites(s: State, a: Action, q: nat) {
    a.Clone? && a.dst == q && Alive(s, q) && Alive(s, a.src) && s.res[q].table >= 0 && s.res[a.src].table >= 0
  }

  /** Whether restriction `q` lets a request pass. */
  predicate Permits(no: Rejections, s: State, q: nat, op: nat, req: nat) {
    q < |s.res| && Allows(no, s.filters, s.tables, s.res[q], op, req)
  }

  /** Restriction `q` lets the same requests pass in both states. */
  ghost predicate Unmoved(s: State, s': State, q: nat) {
    forall no: Rejections, op: nat, req: nat :: Permits(no, s', q, op, req) == Permits(no, s, q, op, req)
  }

  /** What restriction `q` lets pass in `s'` it let pass in `s`. */
  ghost predicate Tighter(s: State, s': State, q: nat) {
    forall no: Rejections, op: nat, req: nat :: op < s.ops && Permits(no, s', q, op, req) ==> Permits(no, s, q, op, req)
  }

  lemma UnmovedAll(s: State, s': State)
    requires Good(s) && Good(s') && Kept(s.filters, s'.filters) && s'.res == s.res && s'.orphans == s.orphans
        && |s.tables| <= |s'.tables|
    requires forall t :: 0 <= t < |s.tables| && s.tables[t].Table? && s'.tables[t].Table? ==>
        s'.tables[t].slots == s.tables[t].slots
    ensures forall q :: 0 <= q < |s.res| ==> Unmoved(s, s', q)
  {
    forall q | 0 <= q < |s.res| ensures Unmoved(s, s', q) {
      assert Everyone(s)[q] == s.res[q] && Everyone(s')[q] == s.res[q];
      AgreeKept(s.filters, s.tables, s'.filters, s'.tables, s.res[q]);
      AgreeUnmoved(s, s', q);
    }
  }

  lemma AgreeUnmoved(s: State, s': State, q: nat)
    requires q < |s.res| && q < |s'.res| && Agree(s.filters, s.tables, s.res[q], s'.filters, s'.tables, s'.res[q])
    ensures Unmoved(s, s', q)
  {
    hide Allows;
  }

  lemma CreateKeeps(s: State)
    requires Good(s)
    ensures Good(Do(s, Create)) && forall q :: 0 <= q < |s.res| ==> Unmoved(s, Do(s, Create), q)
  {
    CreateOwned(s.ops, s.tables, s.res, s.orphans);
  }

  lemma AliveAt(s: State, r: nat)
    requires Good(s) && r < |s.res| && s.res[r].Restriction?
    ensures Alive(s, r) && (s.res[r].table >= 0 ==> s.tables[s.res[r].table].refs > 0)
  {
    assert Everyone(s)[r] == s.res[r];
    if s.res[r].table >= 0 {
      OwnersAt(Everyone(s), r, s.res[r].table);
    }
  }

  /** Cloning keeps all counts exact.  It leaves a reference that nobody will put if and only if the destination has
      a table and the source has one to share. */
  lemma CloneExactly(s: State, dst: nat, src: nat)
    requires Good(s) && Alive(s, dst) && Alive(s, src)
    ensures Good(Cloned(s, dst, src))
    ensures Cloned(s, dst, src).orphans == if Overwrites(s, Clone(dst, src), dst) then s.orphans + [s.res[dst]]
        else s.orphans
  {
    hide Exact, Logged, Owned;
    var t, rs := s.res[src].table, Everyone(s);
    AliveAt(s, src);
    if t >= 0 {
      TableRecount(s.filters, s.tables, t, s.tables[t].refs + 1);
      CloneOwned(s.ops, s.tables, rs, dst, src, t);
      var s', rs' := Cloned(s, dst, src), rs[dst := Restriction(t, true)];
      assert Everyone(s') == if s.res[dst].table >= 0 then rs' + [s.res[dst]] else rs';
    }
  }

  lemma CloneMeans(s: State, dst: nat, src: nat)
    requires Good(s) && Alive(s, dst) && Alive(s, src)
    ensures var s' := Cloned(s, dst, src);
      && (forall q :: 0 <= q < |s.res| && q != dst ==> Unmoved(s, s', q))
      && (s.res[src].table >= 0 ==>
            forall no: Rejections, op: nat, req: nat :: Permits(no, s', dst, op, req) == Permits(no, s, src, op, req))
  {
    AliveAt(s, src);
  }

  lemma PutKeeps(s: State, r: nat)
    requires Good(s) && Alive(s, r)
    ensures Good(PutAway(s, r)) && forall q :: 0 <= q < |s.res| && q != r ==> Unmoved(s, PutAway(s, r), q)
  {
    var t, rs := s.res[r].table, Everyone(s);
    DropOwned(s.ops, s.tables, rs, r);
    assert Everyone(PutAway(s, r)) == rs[r := Dropped];
    if t >= 0 {
      TableRecount(s.filters, s.tables, t, s.tables[t].refs - 1);
    }
    hide Owned, Exact, Logged;
  }

  lemma ReclaimKeeps(s: State, t: nat)
    requires Good(s) && Enabled(s, Reclaim(t))
    ensures var s' := Reclaimed(s, t);
      Good(s') && s.freed <= s'.freed && Kept(s.filters, s'.filters) && forall q :: 0 <= q < |s.res| ==>
          Unmoved(s, s', q)
  {
    hide Unmoved, Exact, Logged, Kept;
    var slots := s.tables[t].slots;
    var m, ts := ReleasedAll(Memory(s.filters, s.freed), slots, |slots|),
        s.tables[t := s.tables[t].(slots := Emptied(slots, |slots|))];
    ReleasedAllExact(Memory(s.filters, s.freed), s.tables, t, |slots|);
    TableFreed(m.filters, ts, t);
    assert ts[t := NoTable] == s.tables[t := NoTable];
    OwnedWithout(s.ops, s.tables, Everyone(s), t);
    assert Everyone(Reclaimed(s, t)) == Everyone(s);
    UnmovedAll(s, Reclaimed(s, t));
  }

  // ----- registering -----

  lemma PreparedKeeps(s: State, r: nat)
    requires Good(s) && Alive(s, r)
    ensures var s1 := Prepared(s, r);
      && Exact(s1.filters, s1.tables, Nil) && Logged(s1.filters, s1.freed) && Kept(s.filters, s1.filters)
      && |s1.filters| == |s.filters| && s1.freed == s.freed && s1.ops == s.ops
      && Targeted(s.ops, s.tables, s.res[r], s1.tables, Target(s, r))
  {
    hide Exact, Logged, Kept;
    var t := s.res[r].table;
    KeptAll(s.filters);
    if !InPlace(s.res[r]) {
      if t == -1 {
        TableAdded(s.filters, s.tables, Table(1, seq(s.ops, _ => Nil)));
      } else {
        CopyExact(s.filters, s.freed, s.tables, t, s.ops);
        assert Copied(s.tables[t].slots, s.ops) == s.tables[t].slots;
      }
    }
  }

  lemma InsertedExact(s: State, n: nat, op: nat, prog: nat, denyRest: bool)
    requires Exact(s.filters, s.tables, Nil) && Logged(s.filters, s.freed)
    requires n < |s.tables| && s.tables[n].Table? && op < |s.tables[n].slots|
    ensures var s' := Inserted(s, n, op, prog, denyRest);
            Exact(s'.filters, s'.tables, Nil) && Logged(s'.filters, s'.freed)
  {
    var slots, f := s.tables[n].slots, |s.filters|;
    InsertExact(s.filters, s.tables, n, op, prog);
    DenyExact(s.filters + [Filter(1, prog, slots[op])], s.tables, n, op, f, if denyRest then |slots| else 0);
  }

  /** Making empty slots deny changes no count. */
  lemma {:induction false} DenyExact(fs: seq<Filter>, ts: seq<Table>, n: nat, op: nat, f: nat, m: nat)
    requires n < |ts| && ts[n].Table? && op < |ts[n].slots| && m <= |ts[n].slots|
    requires Exact(fs, ts[n := ts[n].(slots := ts[n].slots[op := Node(f)])], Nil)
    ensures Exact(fs, ts[n := ts[n].(slots := NewSlots(ts[n].slots, op, f, m))], Nil)
  {
    hide Exact;
    var slots := ts[n].slots;
    if m == 0 {
      assert NewSlots(slots, op, f, 0) == slots[op := Node(f)];
    } else {
      DenyExact(fs, ts, n, op, f, m - 1);
      var before := NewSlots(slots, op, f, m - 1);
      var ts1 := ts[n := ts[n].(slots := before)];
      if m - 1 != op && slots[m - 1] == Nil {
        DummyStored(fs, ts1, n, m - 1);
        assert before[m - 1 := Dummy] == NewSlots(slots, op, f, m);
        assert ts1[n := ts1[n].(slots := NewSlots(slots, op, f, m))] ==
            ts[n := ts[n].(slots := NewSlots(slots, op, f, m))];
      } else {
        assert before == NewSlots(slots, op, f, m);
      }
    }
  }

  lemma AdoptedKeeps(s: State, s1: State, r: nat, n: nat)
    requires Good(s) && Alive(s, r) && s1 == Prepared(s, r) && n == Target(s, r)
    ensures Alive(s1, r) && Good(Adopted(s1, r, n))
  {
    hide Exact, Logged;
    PreparedKeeps(s, r);
    AdoptOwned(s.ops, s.tables, Everyone(s), s1.tables, r, n);
    assert Everyone(Adopted(s1, r, n)) == Everyone(s)[r := Adopted(s1, r, n).res[r]];
    var t := s.res[r].table;
    if t >= 0 && t != n {
      TableRecount(s1.filters, s1.tables, t, s1.tables[t].refs - 1);
    }
  }

  lemma RegisterKeeps(s: State, r: nat, op: nat, prog: nat, denyRest: bool, noTable: bool, noFilter: bool)
    requires Good(s) && Alive(s, r) && op < s.ops
    ensures Good(Registered(s, r, op, prog, denyRest, noTable, noFilter))
  {
    hide Exact, Logged, Targeted;
    var s1, n := Prepared(s, r), Target(s, r);
    PreparedKeeps(s, r);
    if Succeeds(s, r, noTable, noFilter) {
      AdoptedKeeps(s, s1, r, n);
      var s2 := Adopted(s1, r, n);
      InsertedExact(s2, n, op, prog, denyRest);
      InstalledOwned(s.ops, s2.tables, Everyone(s2), Inserted(s2, n, op, prog, denyRest).tables, n);
    } else if !InPlace(s.res[r]) && !noTable {
      TableRecount(s1.filters, s1.tables, n, s1.tables[n].refs - 1);
      AbandonedOwned(s, r);
    }
  }

  lemma AbandonedOwned(s: State, r: nat)
    requires Good(s) && Alive(s, r) && !InPlace(s.res[r])
    ensures Owned(s.ops, Recounted(Prepared(s, r).tables, Target(s, r), -1), Everyone(s))
  {
    hide Exact, Logged;
    PreparedKeeps(s, r);
    AbandonOwned(s.ops, s.tables, Everyone(s), Prepared(s, r).tables, Target(s, r));
  }

  /** From `s` to `s'` restriction `q` loses exactly the requests that the new filter rejects and, with
      DENY_REST, those of opcodes that had no filter. */
  ghost predicate Lost(s: State, s': State, q: nat, op: nat, prog: nat, denyRest: bool) {
    && q < |s.res| == |s'.res|
    && Narrowed(s.ops, s.filters, s.tables, s.res[q], s'.filters, s'.tables, s'.res[q], op, prog, denyRest)
  }

  /** A successful registration on `r` narrows `r`, and the restrictions whose table `r` changes in place, by
      exactly the new filter.  It changes nothing for anybody else, and without memory for nobody. */
  lemma RegisterExactly(s: State, r: nat, op: nat, prog: nat, denyRest: bool, noTable: bool, noFilter: bool, q: nat)
    requires Good(s) && Alive(s, r) && op < s.ops && q < |s.res|
    ensures var s' := Registered(s, r, op, prog, denyRest, noTable, noFilter);
      if Succeeds(s, r, noTable, noFilter) && (q == r || Shares(s.res[r], s.res[q]))
          then Lost(s, s', q, op, prog, denyRest)
      else Unmoved(s, s', q)
  {
    hide Unmoved, Narrowed, Agree, Exact, Logged, Owned, Installed, Kept, Closed;
    var s', s1, n := Registered(s, r, op, prog, denyRest, noTable, noFilter), Prepared(s, r), Target(s, r);
    RegisterKeeps(s, r, op, prog, denyRest, noTable, noFilter);
    PreparedKeeps(s, r);
    if Succeeds(s, r, noTable, noFilter) {
      AdoptedKeeps(s, s1, r, n);
      var s2 := Adopted(s1, r, n);
      NewSlotsInstalled(s2.tables[n].slots, op, |s2.filters|, if denyRest then s.ops else 0);
      GoodClosed(s);
      GoodClosed(s');
      RegisterMeans(s.ops, s.filters, s.tables, Everyone(s), r, s2.filters, s2.tables, Everyone(s2), n, s'.filters,
          s'.tables, op, prog, denyRest);
      assert Everyone(s)[q] == s.res[q] && Everyone(s2)[q] == s2.res[q];
      if !(q == r || Shares(s.res[r], s.res[q])) {
        AgreeUnmoved(s, s', q);
      }
    } else {
      UnmovedAll(s, s');
    }
  }

  lemma NewSlotsInstalled(slots: seq<Ref>, op: nat, f: nat, m: nat)
    ensures Installed(slots, NewSlots(slots, op, f, m), op, f, m)
  {
  }

  lemma GoodClosed(s: State)
    requires Good(s)
    ensures Closed(s.filters, s.tables, Nil)
  {
  }

  // ----- runs -----

  /** What one step may do to a restriction. */
  lemma StepKeeps(s: State, a: Action)
    requires Good(s) && Enabled(s, a)
    ensures var s' := Do(s, a); Good(s') && s'.ops == s.ops && |s.res| <= |s'.res|
  {
    hide Good, GrabbedAll, ReleasedAll, NewSlots;
    match a
    case Create => CreateKeeps(s);
    case Clone(dst, src) => CloneExactly(s, dst, src);
    case Register(r, op, prog, denyRest, noTable, noFilter) => RegisterKeeps(s, r, op, prog, denyRest, noTable,
        noFilter);
    case Put(r) => PutKeeps(s, r);
    case Reclaim(t) => ReclaimKeeps(s, t);
  }

  /** A restriction that is gone does not come back, and what is left lets no more pass than before, unless it is
      overwritten. */
  lemma StepTightens(s: State, a: Action, q: nat)
    requires Good(s) && Enabled(s, a) && q < |s.res| && !Overwrites(s, a, q)
    ensures Tighter(s, Do(s, a), q)
  {
    hide Good, GrabbedAll, ReleasedAll, NewSlots, Allows;
    match a
    case Create =>
      CreateKeeps(s);
      assert Unmoved(s, Do(s, Create), q);
    case Clone(dst, src) =>
      CloneExactly(s, dst, src);
      CloneMeans(s, dst, src);
      if q == dst {
        CloneTightens(s, dst, src);
      }
      assert q != dst ==> Unmoved(s, Cloned(s, dst, src), q);
    case Register(r, op, prog, denyRest, noTable, noFilter) =>
      RegisterExactly(s, r, op, prog, denyRest, noTable, noFilter, q);
    case Put(r) =>
      PutKeeps(s, r);
      PutTightens(s, r);
      assert q != r ==> Unmoved(s, PutAway(s, r), q);
    case Reclaim(t) =>
      ReclaimKeeps(s, t);
      assert Unmoved(s, Reclaimed(s, t), q);
  }

  lemma CloneTightens(s: State, dst: nat, src: nat)
    requires Good(s) && Alive(s, dst) && Alive(s, src) && (s.res[dst].table == -1 || s.res[src].table == -1)
    ensures Tighter(s, Cloned(s, dst, src), dst)
  {
  }

  /** Whatever restriction `src` lets pass, `dst` lets pass. */
  ghost predicate AllowsLess(s: State, src: nat, dst: nat) {
    forall no: Rejections, op: nat, req: nat :: op < s.ops && Permits(no, s, src, op, req) ==>
        Permits(no, s, dst, op, req)
  }

  /** A clone that overwrites filters lets no more pass than before exactly if the source let no more pass. */
  lemma OverwriteTightens(s: State, dst: nat, src: nat)
    requires Good(s) && Alive(s, dst) && Alive(s, src) && Overwrites(s, Clone(dst, src), dst)
    ensures Tighter(s, Cloned(s, dst, src), dst) <==> AllowsLess(s, src, dst)
  {
    hide Good, Permits;
    CloneMeans(s, dst, src);
    var s' := Cloned(s, dst, src);
    if Tighter(s, s', dst) {
      forall no: Rejections, op: nat, req: nat | op < s.ops && Permits(no, s, src, op, req)
          ensures Permits(no, s, dst, op, req) {
        assert Permits(no, s', dst, op, req);
      }
    }
    if AllowsLess(s, src, dst) {
      forall no: Rejections, op: nat, req: nat | op < s.ops && Permits(no, s', dst, op, req)
          ensures Permits(no, s, dst, op, req) {
        assert Permits(no, s, src, op, req);
      }
    }
  }

  lemma PutTightens(s: State, r: nat)
    requires Alive(s, r)
    ensures Tighter(s, PutAway(s, r), r)
  {
  }

  function Empty(ops: nat): State {
    State(ops, [], [], [], [], [])
  }

  ghost predicate IsRun(ops: nat, states: seq<State>, acts: seq<Action>) {
    && |states| == |acts| + 1 && states[0] == Empty(ops)
    && forall i :: 0 <= i < |acts| ==> Enabled(states[i], acts[i]) && states[i + 1] == Do(states[i], acts[i])
  }

  lemma EmptyGood(ops: nat)
    ensures Good(Empty(ops))
  {
  }

  /** In every run the reference counts are exact, nothing that can be reached is freed, each filter is freed
      at most once, and tables count their owners. */
  lemma {:induction false} RunKeeps(ops: nat, states: seq<State>, acts: seq<Action>, n: nat)
    requires IsRun(ops, states, acts) && n < |states|
    ensures Good(states[n]) && states[n].ops == ops
  {
    hide Good, Enabled, Do;
    if n == 0 {
      EmptyGood(ops);
    } else {
      RunKeeps(ops, states, acts, n - 1);
      StepKeeps(states[n - 1], acts[n - 1]);
    }
  }

  /** Over every run of creating, cloning, registering, putting and freeing, the requests that a restriction lets
      pass never grow, as long as no clone overwrites the filters that it has. */
  lemma {:induction false} NeverGrows(ops: nat, states: seq<State>, acts: seq<Action>, i: nat, j: nat, q: nat)
    requires IsRun(ops, states, acts) && i <= j < |states| && q < |states[i].res|
    requires forall k :: i <= k < j ==> !Overwrites(states[k], acts[k], q)
    ensures q < |states[j].res| && Tighter(states[i], states[j], q)
    decreases j
  {
    hide Good, Enabled, Do, Permits;
    if i < j {
      NeverGrows(ops, states, acts, i, j - 1, q);
      RunKeeps(ops, states, acts, j - 1);
      RunKeeps(ops, states, acts, i);
      StepKeeps(states[j - 1], acts[j - 1]);
      StepTightens(states[j - 1], acts[j - 1], q);
    }
  }

  // ----- a clone and its source -----

  /** The two do not share a table, or the clone must copy it first. */
  ghost predicate Apart(s: State, src: nat, dst: nat) {
    && src < |s.res| && dst < |s.res| && src != dst
    && (s.res[src].Restriction? ==> s.res[src].table >= 0) && (s.res[dst].Restriction? ==> s.res[dst].table >= 0)
    && (s.res[src].Restriction? && s.res[dst].Restriction? && s.res[src].table == s.res[dst].table ==> s.res[dst].cow)
  }

  lemma StaysApart(s: State, a: Action, src: nat, dst: nat)
    requires Good(s) && Enabled(s, a) && Apart(s, src, dst) && !Overwrites(s, a, src)
    ensures Apart(Do(s, a), src, dst)
  {
    hide Exact, Logged, GrabbedAll, ReleasedAll, NewSlots;
  }

  /** Once `dst` was cloned from `src`, nothing that is ever registered on `dst` changes what `src` lets pass, as
      long as `src` is not overwritten by a clone itself. */
  lemma {:induction false} CloneLeavesSource(ops: nat, states: seq<State>, acts: seq<Action>, i: nat, j: nat)
    requires IsRun(ops, states, acts) && i < j < |acts| && acts[i].Clone? && acts[i].src != acts[i].dst
    requires acts[i].src < |states[i].res| && states[i].res[acts[i].src].Restriction?
        && states[i].res[acts[i].src].table >= 0
    requires acts[j].Register? && acts[j].r == acts[i].dst
    requires forall k :: i < k < j ==> !Overwrites(states[k], acts[k], acts[i].src)
    ensures Unmoved(states[j], states[j + 1], acts[i].src)
  {
    hide Good, Do, Unmoved;
    var src, dst := acts[i].src, acts[i].dst;
    RunKeeps(ops, states, acts, i);
    ClonedApart(states[i], dst, src);
    RunApart(ops, states, acts, src, dst, i + 1, j);
    RunKeeps(ops, states, acts, j);
    var a := acts[j];
    RegisterExactly(states[j], a.r, a.op, a.prog, a.denyRest, a.noTable, a.noFilter, src);
    RegisterIs(states[j], a);
  }

  lemma RegisterIs(s: State, a: Action)
    requires Enabled(s, a) && a.Register?
    ensures Do(s, a) == Registered(s, a.r, a.op, a.prog, a.denyRest, a.noTable, a.noFilter)
  {
  }

  lemma ClonedApart(s: State, dst: nat, src: nat)
    requires Good(s) && Alive(s, dst) && Alive(s, src) && src != dst && s.res[src].table >= 0
    ensures Apart(Do(s, Clone(dst, src)), src, dst)
  {
    AliveAt(s, src);
  }

  lemma {:induction false} RunApart(ops: nat, states: seq<State>, acts: seq<Action>, src: nat, dst: nat, i: nat, j: nat)
    requires IsRun(ops, states, acts) && i <= j < |states| && Apart(states[i], src, dst)
    requires forall k :: i <= k < j ==> !Overwrites(states[k], acts[k], src)
    ensures Apart(states[j], src, dst)
    decreases j
  {
    hide Good, Enabled, Do, Apart;
    if i < j {
      RunApart(ops, states, acts, src, dst, i, j - 1);
      RunKeeps(ops, states, acts, j - 1);
      StaysApart(states[j - 1], acts[j - 1], src, dst);
    }
  }

  /** The other way round it does not hold.  Cloning marks only the clone, so in this run a filter registered on the
      source takes a request from the clone as well.  `RegisterExactly` says when that happens. */
  lemma SourceReachesClone(no: Rejections, req: nat, first: nat, second: nat)
      returns (states: seq<State>, acts: seq<Action>)
    requires (first, req) !in no && (second, req) in no
    ensures IsRun(1, states, acts) && |acts| == 5 && acts[3] == Clone(1, 0)
        && acts[4] == Register(0, 0, second, false, false, false)
    ensures Permits(no, states[4], 1, 0, req) && !Permits(no, states[5], 1, 0, req)
  {
    var r0, r1 := Restriction(0, false), Restriction(0, true);
    var f0, f1 := Filter(1, first, Nil), Filter(1, second, Node(0));
    acts := [Create, Create, Register(0, 0, first, false, false, false), Clone(1, 0),
        Register(0, 0, second, false, false, false)];
    states := [Empty(1), OneOp([], [], [NONE]), OneOp([], [], [NONE, NONE]),
               OneOp([f0], [Table(1, [Node(0)])], [r0, NONE]),
               OneOp([f0], [Table(2, [Node(0)])], [r0, r1]),
               OneOp([f0, f1], [Table(2, [Node(1)])], [r0, r1])];
    FirstFilter(first);
    SecondFilter(f0, second, r1);
    assert states[4] == Do(states[3], acts[3]);
  }

  const NONE := Restriction(-1, false)

  /** A state with one opcode, nothing freed and nothing overwritten. */
  function OneOp(fs: seq<Filter>, ts: seq<Table>, rs: seq<Restriction>): State {
    State(1, fs, ts, rs, [], [])
  }

  lemma FirstFilter(prog: nat)
    ensures Registered(OneOp([], [], [NONE, NONE]), 0, 0, prog, false, false, false)
         == OneOp([Filter(1, prog, Nil)], [Table(1, [Node(0)])], [Restriction(0, false), NONE])
  {
    var s := OneOp([], [], [NONE, NONE]);
    assert seq(1, _ => Nil) == [Nil] && NewSlots([Nil], 0, 0, 0) == [Node(0)];
    assert Adopted(Prepared(s, 0), 0, 0) == OneOp([], [Table(1, [Nil])], [Restriction(0, false), NONE]);
  }

  lemma SecondFilter(f0: Filter, prog: nat, r1: Restriction)
    ensures Registered(OneOp([f0], [Table(2, [Node(0)])], [Restriction(0, false), r1]), 0, 0, prog, false, false, false)
         == OneOp([f0, Filter(1, prog, Node(0))], [Table(2, [Node(1)])], [Restriction(0, false), r1])
  {
    var s := OneOp([f0], [Table(2, [Node(0)])], [Restriction(0, false), r1]);
    assert NewSlots([Node(0)], 0, 1, 0) == [Node(1)] && Adopted(s, 0, 0) == s;
  }

  /** A clone that overwrites filters can let requests pass again, and its old table is never freed. */
  lemma OverwriteGrows(no: Rejections, req: nat, first: nat, second: nat)
      returns (states: seq<State>, acts: seq<Action>)
    requires (first, req) in no && (second, req) !in no
    ensures IsRun(1, states, acts) && |acts| == 5 && acts[4] == Clone(0, 1) && Overwrites(states[4], acts[4], 0)
    ensures !Permits(no, states[4], 0, 0, req) && Permits(no, states[5], 0, 0, req) && states[5].orphans != []
  {
    hide Registered, Cloned, PutAway, Reclaimed;
    var r0, r1 := Restriction(0, false), Restriction(1, false);
    var f0, f1 := Filter(1, first, Nil), Filter(1, second, Nil);
    var t0, t1 := Table(1, [Node(0)]), Table(1, [Node(1)]);
    acts := [Create, Create, Register(0, 0, first, false, false, false), Register(1, 0, second, false, false, false),
        Clone(0, 1)];
    states := [Empty(1), OneOp([], [], [NONE]), OneOp([], [], [NONE, NONE]), OneOp([f0], [t0], [r0, NONE]),
        OneOp([f0, f1], [t0, t1], [r0, r1]),
               State(1, [f0, f1], [t0, Table(2, [Node(1)])], [Restriction(1, true), r1], [], [r0])];
    FirstFilter(first);
    OtherFilter(f0, t0, r0, second);
    CloneOver(f0, f1);
  }

  lemma CloneOver(f0: Filter, f1: Filter)
    ensures Cloned(OneOp([f0, f1], [Table(1, [Node(0)]), Table(1, [Node(1)])],
        [Restriction(0, false), Restriction(1, false)]), 0, 1)
         == State(1, [f0, f1], [Table(1, [Node(0)]), Table(2, [Node(1)])],
        [Restriction(1, true), Restriction(1, false)], [], [Restriction(0, false)])
  {
  }

  lemma OtherFilter(f0: Filter, t0: Table, r0: Restriction, prog: nat)
    ensures Registered(OneOp([f0], [t0], [r0, NONE]), 1, 0, prog, false, false, false)
         == OneOp([f0, Filter(1, prog, Nil)], [t0, Table(1, [Node(1)])], [r0, Restriction(1, false)])
  {
    var s := OneOp([f0], [t0], [r0, NONE]);
    assert seq(1, _ => Nil) == [Nil] && NewSlots([Nil], 0, 1, 0) == [Node(1)];
    assert Adopted(Prepared(s, 1), 1, 1) == OneOp([f0], [t0, Table(1, [Nil])], [r0, Restriction(1, false)]);
  }

  // ----- when all owners are gone -----

  ghost predicate NobodyLeft(s: State) {
    forall q :: 0 <= q < |s.res| ==> s.res[q] == Dropped
  }

  /** A table without owners may be freed. */
  lemma NoOwners(s: State, t: nat)
    requires Good(s) && t < |s.tables| && s.tables[t].Table? && NobodyLeft(s) && s.orphans == []
    ensures Enabled(s, Reclaim(t))
  {
    OwnersNone(Everyone(s), t);
  }

  /** The tables from number `n` on that have no owner are freed, one after the other. */
  function Swept(s: State, n: nat): State
    decreases |s.tables| - n
  {
    if n >= |s.tables| then s
    else if s.tables[n].Table? && s.tables[n].refs == 0 then Swept(Reclaimed(s, n), n + 1)
    else Swept(s, n + 1)
  }

  ghost predicate AllGone(s: State) {
    && (forall t :: 0 <= t < |s.tables| ==> s.tables[t] == NoTable)
    && forall f :: 0 <= f < |s.filters| ==> s.filters[f] == Gone && f in s.freed
  }

  /** Once all restrictions have been put, freeing the tables that have no owner frees every table and every filter,
      each of them once, if and only if no clone ever overwrote filters. */
  lemma {:induction false} AllPut(s: State, n: nat)
    requires Good(s) && NobodyLeft(s)
    requires s.orphans == [] ==> forall t :: 0 <= t < n && t < |s.tables| ==> s.tables[t] == NoTable
    ensures var s' := Swept(s, n);
      Good(s') && |s'.filters| == |s.filters| && s.freed <= s'.freed && s'.orphans == s.orphans
          && (AllGone(s') <==> s.orphans == [])
    decreases |s.tables| - n
  {
    hide ReleasedAll, Exact, Logged;
    if n >= |s.tables| {
      if s.orphans == [] {
        AllFreed(s.filters, s.tables, |s.filters|);
        AllLogged(s);
      } else {
        var o := |s.res|;
        assert Everyone(s)[o] == s.orphans[0];
      }
    } else {
      if s.tables[n].Table? && s.orphans == [] {
        NoOwners(s, n);
      }
      hide Owned;
      if s.tables[n].Table? && s.tables[n].refs == 0 {
        ReclaimKeeps(s, n);
        AllPut(Reclaimed(s, n), n + 1);
      } else {
        AllPut(s, n + 1);
      }
    }
  }

  lemma AllLogged(s: State)
    requires Logged(s.filters, s.freed) && forall f :: 0 <= f < |s.filters| ==> s.filters[f] == Gone
    ensures forall f :: 0 <= f < |s.filters| ==> f in s.freed
  {
  }

  predicate Harmless(s: State, a: Action) {
    a.Clone? ==> !Overwrites(s, a, a.dst)
  }

  /** A run has left no orphans exactly if no clone has overwritten filters. */
  lemma {:induction false} NoOrphans(ops: nat, states: seq<State>, acts: seq<Action>, n: nat)
    requires IsRun(ops, states, acts) && n < |states|
    ensures states[n].orphans == [] <==> forall k :: 0 <= k < n ==> Harmless(states[k], acts[k])
  {
    hide Good, Do, Harmless;
    if n > 0 {
      NoOrphans(ops, states, acts, n - 1);
      RunKeeps(ops, states, acts, n - 1);
      OrphansStep(states[n - 1], acts[n - 1]);
    }
  }

  lemma OrphansStep(s: State, a: Action)
    requires Good(s) && Enabled(s, a)
    ensures Do(s, a).orphans == [] <==> s.orphans == [] && Harmless(s, a)
  {
    hide Exact, Logged, Owned;
    if a.Clone? {
      CloneExactly(s, a.dst, a.src);
    }
  }
}

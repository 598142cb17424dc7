/** io_uring's filter sets (io_uring/bpffilter.c), changed in place. */
module FilterSets {
  import opened FilterRefs
  import opened FilterVerdict
  import opened FilterRun

  datatype Errno = OK | ENOMEM

  class Registry {
    const ops: nat
    var filters: seq<Filter>
    var tables: seq<Table>
    var res: seq<Restriction>
    var freed: seq<nat>
    /** What clones have overwritten. */
    ghost var orphans: seq<Restriction>

    ghost function View(): State
      reads this
    {
      State(ops, filters, tables, res, freed, orphans)
    }

    ghost predicate Valid()
      reads this
    {
      Good(View())
    }

    constructor (ops: nat)
      ensures Valid() && View() == Empty(ops)
    {
      this.ops := ops;
      filters, tables, res, freed, orphans := [], [], [], [], [];
      new;
      EmptyGood(ops);
    }

    /** __io_uring_run_bpf_filters. */
    method Run(no: Rejections, r: nat, op: nat, req: nat) returns (allowed: bool)
      requires Valid() && r < |res| && res[r].Restriction? && op < ops
      ensures allowed == Permits(no, View(), r, op, req)
    {
      if res[r].table == -1 {
        return true;
      }
      AliveAt(View(), r);
      var f := tables[res[r].table].slots[op];
      assert Live(filters, f);
      while f != Nil
        invariant Live(filters, f) && Permits(no, View(), r, op, req) == Verdict(no, filters, f, req)
        decreases Rank(f)
      {
        if f == Dummy {
          return false;
        }
        assert Live(filters, filters[f.id].next) && Older(f.id, filters[f.id].next);
        if (filters[f.id].prog, req) in no {
          return false;
        }
        f := filters[f.id].next;
      }
      return true;
    }

    /** A new restriction without filters. */
    method NewRestriction() returns (r: nat)
      requires Valid()
      modifies this`res
      ensures Valid() && r == |old(res)| && View() == Do(old(View()), Create)
    {
      CreateKeeps(View());
      r := |res|;
      res := res + [Restriction(-1, false)];
    }

    /** io_bpf_filter_clone: both restrictions share the table from now on.  What the destination had before is
        overwritten and not put. */
    method CloneFilters(dst: nat, src: nat)
      requires Valid() && Alive(View(), dst) && Alive(View(), src)
      modifies this`tables, this`res, this`orphans
      ensures Valid() && View() == Do(old(View()), Clone(dst, src))
      ensures orphans != old(orphans) <==> old(Overwrites(View(), Clone(dst, src), dst))
      ensures forall q :: 0 <= q < |res| && q != dst ==> Unmoved(old(View()), View(), q)
    {
      hide Exact, Owned, Logged, Unmoved;
      CloneExactly(View(), dst, src);
      CloneMeans(View(), dst, src);
      var t := res[src].table;
      if t == -1 {
        return;
      }
      if tables[t].refs != 0 {
        tables := tables[t := tables[t].(refs := tables[t].refs + 1)];
        if res[dst].table >= 0 {
          orphans := orphans + [res[dst]];
        }
        res := res[dst := Restriction(t, true)];
      }
    }

    /** io_bpf_filter_cow: a new table that shares all chains with table `t`.  Taking a reference never
        fails, because the counts of reachable filters are positive. */
    method Cow(t: nat) returns (n: nat)
      requires Valid() && t < |tables| && tables[t].Table?
      modifies this`filters, this`tables
      ensures n == |old(tables)| && tables == old(tables) + [Table(1, old(tables)[t].slots)]
      ensures filters == GrabbedAll(old(filters), old(tables)[t].slots, ops)
    {
      hide Exact, Logged;
      n := |tables|;
      tables := tables + [Table(1, seq(ops, _ => Nil))];
      ghost var slots := tables[t].slots;
      assert seq(ops, _ => Nil) == Copied(slots, 0);
      var i := 0;
      while i < ops
        invariant 0 <= i <= ops && tables == old(tables) + [Table(1, Copied(slots, i))]
        invariant filters == GrabbedAll(old(filters), slots, i)
      {
        CopyExact(old(filters), freed, old(tables), t, i);
        SlotsLive(filters, tables, t, i);
        var f := tables[t].slots[i];
        if f.Node? {
          PositiveRefs(filters, tables, f.id);
          assert filters[f.id].refs != 0;
          filters := filters[f.id := filters[f.id].(refs := filters[f.id].refs + 1)];
        }
        assert Copied(slots, i)[i := f] == Copied(slots, i + 1);
        tables := tables[n := tables[n].(slots := tables[n].slots[i := f])];
        i := i + 1;
      }
      assert Copied(slots, ops) == slots;
    }

    /** Drops a reference, and those that go with it: the loop of io_free_bpf_filters over one chain. */
    method DropChain(held: Ref, ghost ts: seq<Table>)
      requires Exact(filters, ts, held) && Logged(filters, freed)
      modifies this`filters, this`freed
      ensures Memory(filters, freed) == Released(Memory(old(filters), old(freed)), held)
      ensures Exact(filters, ts, Nil) && Logged(filters, freed)
    {
      hide Exact, Logged;
      var f := held;
      ReleasedExact(Memory(filters, freed), ts, held);
      while f != Nil
        invariant Exact(filters, ts, f) && Logged(filters, freed)
        invariant Released(Memory(filters, freed), f) == Released(Memory(old(filters), old(freed)), held)
        decreases Rank(f)
      {
        HeldLive(filters, ts, f);
        if f == Dummy {
          break;
        }
        var next := filters[f.id].next;
        if filters[f.id].refs > 1 {
          filters := filters[f.id := filters[f.id].(refs := filters[f.id].refs - 1)];
          return;
        }
        FreeExact(filters, ts, f.id);
        FilterFreed(filters, freed, f.id);
        filters, freed := filters[f.id := Gone], freed + [f.id];
        f := next;
      }
    }

    /** io_free_bpf_filters, for a table that nobody owns any more. */
    method FreeTable(t: nat)
      requires Valid() && Enabled(View(), Reclaim(t))
      modifies this`filters, this`tables, this`freed
      ensures Valid() && View() == Do(old(View()), Reclaim(t))
      ensures forall q :: 0 <= q < |res| ==> Unmoved(old(View()), View(), q)
    {
      hide Exact, Logged, Released, Unmoved;
      ReclaimKeeps(View(), t);
      ghost var m, slots := Memory(filters, freed), tables[t].slots;
      var i := 0;
      while i < ops
        invariant 0 <= i <= ops && tables == old(tables) && Memory(filters, freed) == ReleasedAll(m, slots, i)
      {
        ReleasedAllExact(m, tables, t, i);
        ghost var ts := tables[t := tables[t].(slots := Emptied(slots, i))];
        LoadExact(filters, ts, t, i);
        ts := ts[t := ts[t].(slots := ts[t].slots[i := Nil])];
        DropChain(tables[t].slots[i], ts);
        i := i + 1;
      }
      tables := tables[t := NoTable];
    }

    /** Frees the tables that have no owner once every restriction has been put: then nothing is left, and every
        filter was freed exactly once, if and only if no clone ever overwrote filters. */
    method FreeAll()
      requires Valid() && NobodyLeft(View())
      modifies this`filters, this`tables, this`freed
      ensures Valid() && |filters| == |old(filters)| && old(freed) <= freed
      ensures AllGone(View()) <==> orphans == []
    {
      hide Good, Swept, ReleasedAll, AllGone;
      AllPut(View(), 0);
      var t := 0;
      while t < |tables|
        invariant 0 <= t <= |tables| && Valid() && Swept(View(), t) == Swept(old(View()), 0)
      {
        SweptNext(View(), t);
        if tables[t].Table? && tables[t].refs == 0 {
          FreeTable(t);
        }
        t := t + 1;
      }
      SweptEnd(View(), t);
    }

    /** io_put_bpf_filters: the restriction goes away. */
    method PutFilters(r: nat)
      requires Valid() && r < |res| && res[r].Restriction?
      modifies this`tables, this`res
      ensures Valid() && View() == Do(old(View()), Put(r))
      ensures forall q :: 0 <= q < |res| && q != r ==> Unmoved(old(View()), View(), q)
    {
      hide Unmoved;
      AliveAt(View(), r);
      PutKeeps(View(), r);
      var t := res[r].table;
      if t >= 0 {
        tables := tables[t := tables[t].(refs := tables[t].refs - 1)];
      }
      res := res[r := Dropped];
    }

    /** The table to change: the restriction's own, a new one, or a copy of the shared one.  `noMem` says
        that there is no memory for a new one. */
    method TargetTable(r: nat, noMem: bool) returns (n: nat, err: Errno)
      requires Valid() && Alive(View(), r)
      modifies this`filters, this`tables
      ensures err == ENOMEM <==> noMem && !InPlace(res[r])
      ensures err != OK ==> View() == old(View())
      ensures err == OK ==> n == Target(old(View()), r) && View() == Prepared(old(View()), r)
    {
      var t := res[r].table;
      if t != -1 && !res[r].cow {
        return t, OK;
      }
      if noMem {
        return 0, ENOMEM;
      }
      err := OK;
      if t == -1 {
        n := |tables|;
        tables := tables + [Table(1, seq(ops, _ => Nil))];
      } else {
        n := Cow(t);
      }
    }

    /** Puts a new filter in front of the chain of one opcode and, if asked to, makes every opcode without
        a filter denied. */
    method Install(n: nat, op: nat, prog: nat, denyRest: bool)
      requires n < |tables| && tables[n].Table? && |tables[n].slots| == ops && op < ops
      modifies this`filters, this`tables
      ensures View() == Inserted(old(View()), n, op, prog, denyRest)
    {
      ghost var slots := tables[n].slots;
      var f := |filters|;
      filters := filters + [Filter(1, prog, tables[n].slots[op])];
      tables := tables[n := tables[n].(slots := tables[n].slots[op := Node(f)])];
      assert slots[op := Node(f)] == NewSlots(slots, op, f, 0);
      if denyRest {
        var i := 0;
        while i < ops
          invariant 0 <= i <= ops && filters == old(filters) + [Filter(1, prog, slots[op])]
          invariant tables == old(tables)[n := old(tables)[n].(slots := NewSlots(slots, op, f, i))]
        {
          ghost var before := tables[n].slots;
          if i != op && tables[n].slots[i] == Nil {
            tables := tables[n := tables[n].(slots := tables[n].slots[i := Dummy])];
          }
          assert tables[n].slots == NewSlots(slots, op, f, i + 1);
          i := i + 1;
        }
      }
    }

    /** io_register_bpf_filter, after the program was checked.  On success the restriction, and those whose table it
        changes in place, lose exactly what the new filter rejects; everybody else is left alone, and on failure
        everybody. */
    method RegisterFilter(r: nat, op: nat, prog: nat, denyRest: bool, noTable: bool, noFilter: bool)
        returns (err: Errno)
      requires Valid() && Alive(View(), r) && op < ops
      modifies this`filters, this`tables, this`res
      ensures Valid() && View() == Do(old(View()), Register(r, op, prog, denyRest, noTable, noFilter))
      ensures err == OK <==> Succeeds(old(View()), r, noTable, noFilter)
      ensures forall q :: 0 <= q < |res| ==>
                if err == OK && (q == r || Shares(old(res)[r], old(res)[q]))
                    then Lost(old(View()), View(), q, op, prog, denyRest)
                else Unmoved(old(View()), View(), q)
    {
      hide Good, GrabbedAll, NewSlots, Lost, Unmoved, Shares;
      ghost var s := View();
      forall q | 0 <= q < |res|
        ensures var s' := Registered(s, r, op, prog, denyRest, noTable, noFilter);
          if Succeeds(s, r, noTable, noFilter) && (q == r || Shares(s.res[r], s.res[q]))
              then Lost(s, s', q, op, prog, denyRest)
          else Unmoved(s, s', q)
      {
        RegisterExactly(s, r, op, prog, denyRest, noTable, noFilter, q);
      }
      RegisterKeeps(s, r, op, prog, denyRest, noTable, noFilter);
      var n;
      n, err := TargetTable(r, noTable);
      if err != OK {
        return;
      }
      AdoptedKeeps(s, View(), r, n);
      var t := res[r].table;
      if noFilter {
        if n != t {
          tables := tables[n := tables[n].(refs := tables[n].refs - 1)];
        }
        return ENOMEM;
      }
      if t >= 0 && t != n {
        tables := tables[t := tables[t].(refs := tables[t].refs - 1)];
        res := res[r := Restriction(n, false)];
      } else {
        res := res[r := res[r].(table := n)];
      }
      Install(n, op, prog, denyRest);
    }
  }

  lemma PositiveRefs(fs: seq<Filter>, ts: seq<Table>, f: nat)
    requires Exact(fs, ts, Nil) && f < |fs| && fs[f].Filter?
    ensures fs[f].refs > 0
  {
  }

  lemma SweptNext(s: State, n: nat)
    requires n < |s.tables|
    ensures Swept(s, n) == Swept(if s.tables[n].Table? && s.tables[n].refs == 0 then Reclaimed(s, n) else s, n + 1)
  {
  }

  lemma SweptEnd(s: State, n: nat)
    requires n >= |s.tables|
    ensures Swept(s, n) == s
  {
  }
}

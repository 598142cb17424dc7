/** Verdicts and owners of io_uring's filter sets (io_uring/bpffilter.c): which requests a
    restriction lets pass, and who owns a table. */
module FilterVerdict {
  import opened FilterRefs

  /** A restriction refers to a table or, with -1, to none; with `cow` it must copy the
      table before it changes it. */
  datatype Restriction = Dropped | Restriction(table: int, cow: bool)

  /** Which programs reject which requests. */
  type Rejections = set<(nat, nat)>

  // ----- verdicts -----

  function Rank(r: Ref): nat {
    if r.Node? then r.id + 1 else 0
  }

  /** Whether the chain of filters from `r` on lets a request pass. */
  predicate Verdict(no: Rejections, fs: seq<Filter>, r: Ref, req: nat)
    decreases Rank(r)
  {
    match r
    case Nil => true
    case Dummy => false
    case Node(f) =>
      && f < |fs| && fs[f].Filter? && (fs[f].prog, req) !in no
      && Rank(fs[f].next) < Rank(r) && Verdict(no, fs, fs[f].next, req)
  }

  predicate TableAllows(no: Rejections, fs: seq<Filter>, t: Table, op: nat, req: nat) {
    t.Table? && op < |t.slots| && Verdict(no, fs, t.slots[op], req)
  }

  /** Whether a restriction lets a request with opcode `op` pass. */
  predicate Allows(no: Rejections, fs: seq<Filter>, ts: seq<Table>, res: Restriction, op: nat, req: nat) {
    res.Restriction? && (0 <= res.table < |ts| ==> TableAllows(no, fs, ts[res.table], op, req))
  }

  /** Filters may have been added or freed, or changed their counts, but none that is
      left has changed otherwise. */
  ghost predicate Kept(fs: seq<Filter>, fs': seq<Filter>) {
    && |fs| <= |fs'|
    && forall f :: 0 <= f < |fs| && fs'[f].Filter? ==>
         fs[f].Filter? && fs'[f].prog == fs[f].prog && fs'[f].next == fs[f].next
  }

  /** Nothing that a chain refers to is freed, so its verdict stays. */
  lemma {:induction false} VerdictKept(no: Rejections, fs: seq<Filter>, fs': seq<Filter>, ts: seq<Table>, held: Ref,
      r: Ref, req: nat)
    requires Kept(fs, fs') && Closed(fs', ts, held) && Live(fs', r) && Rank(r) <= |fs|
    ensures Verdict(no, fs', r, req) == Verdict(no, fs, r, req)
    decreases Rank(r)
  {
    if r.Node? {
      assert Live(fs', fs'[r.id].next) && Older(r.id, fs'[r.id].next);
      VerdictKept(no, fs, fs', ts, held, fs'[r.id].next, req);
    }
  }

  // ----- owners of tables -----

  function Owns(r: Restriction, t: nat): nat {
    if r.Restriction? && r.table == t then 1 else 0
  }

  function Owners(rs: seq<Restriction>, t: nat): nat {
    if rs == [] then 0 else Owners(rs[..|rs| - 1], t) + Owns(rs[|rs| - 1], t)
  }

  lemma {:induction false} OwnersUpdate(rs: seq<Restriction>, i: nat, r: Restriction, t: nat)
    requires i < |rs|
    ensures Owners(rs[i := r], t) == Owners(rs, t) - Owns(rs[i], t) + Owns(r, t)
    decreases |rs|
  {
    var n := |rs| - 1;
    if i == n {
      assert rs[i := r][..n] == rs[..n];
    } else {
      OwnersUpdate(rs[..n], i, r, t);
      assert rs[i := r][..n] == rs[..n][i := r];
    }
  }

  lemma OwnersAppend(rs: seq<Restriction>, r: Restriction, t: nat)
    ensures Owners(rs + [r], t) == Owners(rs, t) + Owns(r, t)
  {
    assert (rs + [r])[..|rs|] == rs;
  }

  lemma {:induction false} OwnersAt(rs: seq<Restriction>, i: nat, t: nat)
    requires i < |rs|
    ensures Owns(rs[i], t) <= Owners(rs, t)
    decreases |rs|
  {
    if i < |rs| - 1 {
      OwnersAt(rs[..|rs| - 1], i, t);
    }
  }

  lemma {:induction false} OwnersNone(rs: seq<Restriction>, t: nat)
    requires forall i :: 0 <= i < |rs| && rs[i].Restriction? ==> rs[i].table != t
    ensures Owners(rs, t) == 0
  {
    if rs != [] {
      OwnersNone(rs[..|rs| - 1], t);
    }
  }

  /** Every live table counts its owners exactly, and at most one of them may change it
      in place. */
  ghost predicate Owned(ops: nat, ts: seq<Table>, rs: seq<Restriction>) {
    && (forall t :: 0 <= t < |ts| && ts[t].Table? ==> ts[t].refs == Owners(rs, t) && |ts[t].slots| == ops)
    && (forall i :: 0 <= i < |rs| && rs[i].Restriction? ==>
          -1 <= rs[i].table < |ts| && (rs[i].table >= 0 ==> ts[rs[i].table].Table?))
    && (forall i, j ::
          0 <= i < j < |rs| && rs[i].Restriction? && rs[j].Restriction? && rs[i].table == rs[j].table >= 0 ==>
            rs[i].cow || rs[j].cow)
  }

  ghost predicate Distinct(s: seq<nat>) {
    forall i, j :: 0 <= i < j < |s| ==> s[i] != s[j]
  }

  /** `freed` is the order in which filters were freed: each at most once. */
  ghost predicate Logged(fs: seq<Filter>, freed: seq<nat>) {
    Distinct(freed) && forall f :: f in freed <==> 0 <= f < |fs| && fs[f] == Gone
  }

  // ----- the meaning of the steps -----

  /** Two restrictions let the same requests pass. */
  ghost predicate Agree(fs: seq<Filter>, ts: seq<Table>, r: Restriction, fs': seq<Filter>, ts': seq<Table>,
      r': Restriction) {
    forall no: Rejections, op: nat, req: nat :: Allows(no, fs', ts', r', op, req) == Allows(no, fs, ts, r, op, req)
  }

  lemma KeptAll(fs: seq<Filter>)
    ensures Kept(fs, fs)
  {
  }

  lemma HeldLive(fs: seq<Filter>, ts: seq<Table>, held: Ref)
    requires Exact(fs, ts, held)
    ensures Live(fs, held) && (held.Node? ==> fs[held.id].refs > 0 && Rank(fs[held.id].next) < Rank(held))
  {
    if held.Node? {
      assert Older(held.id, fs[held.id].next);
    }
  }

  lemma FilterRecounted(fs: seq<Filter>, freed: seq<nat>, f: nat, refs: int)
    requires Logged(fs, freed) && f < |fs| && fs[f].Filter?
    ensures var fs' := fs[f := fs[f].(refs := refs)]; Logged(fs', freed) && Kept(fs, fs')
  {
  }

  lemma FilterFreed(fs: seq<Filter>, freed: seq<nat>, f: nat)
    requires Logged(fs, freed) && f < |fs| && fs[f].Filter?
    ensures Logged(fs[f := Gone], freed + [f]) && Kept(fs, fs[f := Gone])
  {
  }

  lemma DummyHeld(fs: seq<Filter>, ts: seq<Table>)
    requires Exact(fs, ts, Dummy)
    ensures Exact(fs, ts, Nil)
  {
  }

  lemma KeptTwice(a: seq<Filter>, b: seq<Filter>, c: seq<Filter>)
    requires Kept(a, b) && Kept(b, c)
    ensures Kept(a, c)
  {
  }

  /** Cloning; an owner whose table is overwritten stays as one that nobody will put. */
  lemma CloneOwned(ops: nat, ts: seq<Table>, rs: seq<Restriction>, dst: nat, src: nat, t: nat)
    requires Owned(ops, ts, rs) && dst < |rs| && src < |rs| && rs[src].Restriction? && rs[src].table == t
    requires rs[dst].Restriction? && t < |ts| && ts[t].Table?
    ensures var rs' := rs[dst := Restriction(t, true)];
            Owned(ops, ts[t := ts[t].(refs := ts[t].refs + 1)], if rs[dst].table >= 0 then rs' + [rs[dst]] else rs')
  {
    var rs' := rs[dst := Restriction(t, true)];
    forall u | 0 <= u < |ts|
      ensures Owners(if rs[dst].table >= 0 then rs' + [rs[dst]] else rs', u) == Owners(rs, u) + if u == t then 1 else 0
    {
      OwnersUpdate(rs, dst, Restriction(t, true), u);
      OwnersAppend(rs', rs[dst], u);
    }
  }

  lemma {:induction false} OwnersConcat(a: seq<Restriction>, b: seq<Restriction>, t: nat)
    ensures Owners(a + b, t) == Owners(a, t) + Owners(b, t)
  {
    if b == [] {
      assert a + b == a;
    } else {
      OwnersConcat(a, b[..|b| - 1], t);
      assert (a + b)[..|a + b| - 1] == a + b[..|b| - 1];
    }
  }

  /** A restriction without a table may come in anywhere. */
  lemma CreateOwned(ops: nat, ts: seq<Table>, a: seq<Restriction>, b: seq<Restriction>)
    requires Owned(ops, ts, a + b)
    ensures Owned(ops, ts, a + [Restriction(-1, false)] + b)
  {
    var r := Restriction(-1, false);
    var old0, new0 := a + b, a + [r] + b;
    forall t | 0 <= t < |ts| ensures Owners(new0, t) == Owners(old0, t) {
      OwnersConcat(a, b, t);
      OwnersConcat(a + [r], b, t);
      OwnersAppend(a, r, t);
    }
    forall i | 0 <= i < |new0| && new0[i].Restriction?
      ensures -1 <= new0[i].table < |ts| && (new0[i].table >= 0 ==> ts[new0[i].table].Table?)
    {
      assert i != |a| ==> new0[i] == old0[if i < |a| then i else i - 1];
    }
    forall i, j | 0 <= i < j < |new0| && new0[i].Restriction? && new0[j].Restriction?
        && new0[i].table == new0[j].table >= 0
      ensures new0[i].cow || new0[j].cow
    {
      assert new0[i] == old0[if i < |a| then i else i - 1] && new0[j] == old0[if j < |a| then j else j - 1];
    }
  }

  lemma OwnedWithout(ops: nat, ts: seq<Table>, rs: seq<Restriction>, t: nat)
    requires Owned(ops, ts, rs) && t < |ts| && ts[t].Table? && ts[t].refs == 0
    ensures Owned(ops, ts[t := NoTable], rs) && forall i :: 0 <= i < |rs| && rs[i].Restriction? ==> rs[i].table != t
  {
    forall i | 0 <= i < |rs| && rs[i].Restriction? ensures rs[i].table != t {
      OwnersAt(rs, i, t);
    }
  }

  /** Freeing and counting change no verdict of a restriction whose table is left as it
      is. */
  lemma AgreeKept(fs: seq<Filter>, ts: seq<Table>, fs': seq<Filter>, ts': seq<Table>, r: Restriction)
    requires Kept(fs, fs') && Closed(fs, ts, Nil) && Closed(fs', ts', Nil) && |ts| <= |ts'|
    requires r.Restriction? ==> -1 <= r.table < |ts| && (r.table >= 0 ==> ts[r.table].Table? && ts'[r.table].Table?)
    requires r.Restriction? && r.table >= 0 ==> ts'[r.table].slots == ts[r.table].slots
    ensures Agree(fs, ts, r, fs', ts', r)
  {
    forall no: Rejections, op: nat, req: nat
        ensures Allows(no, fs', ts', r, op, req) == Allows(no, fs, ts, r, op, req) {
      if r.Restriction? && r.table >= 0 && op < |ts[r.table].slots| {
        var f := ts[r.table].slots[op];
        assert Live(fs, f) && Live(fs', ts'[r.table].slots[op]);
        VerdictKept(no, fs, fs', ts', Nil, f, req);
      }
    }
  }

  // ----- registering -----

  /** Table `n` is the one to change: the restriction's own one or a new one, which
      nobody owns yet and which holds what the restriction's table holds. */
  ghost predicate Targeted(ops: nat, ts0: seq<Table>, r: Restriction, ts: seq<Table>, n: nat)
    requires r.Restriction?
  {
    if 0 <= r.table < |ts0| && !r.cow then ts == ts0 && n == r.table
    else
      && n == |ts0| && |ts| == n + 1 && ts == ts0 + [ts[n]] && ts[n].Table? && ts[n].refs == 1 && |ts[n].slots| == ops
      && forall o :: 0 <= o < ops ==> ts[n].slots[o] == SlotOf(ts0, r, o)
  }

  /** What the restriction has for an opcode. */
  function SlotOf(ts: seq<Table>, r: Restriction, o: nat): Ref
    requires r.Restriction?
  {
    if 0 <= r.table < |ts| && ts[r.table].Table? && o < |ts[r.table].slots| then ts[r.table].slots[o] else Nil
  }

  /** The slots after Install; the first `m` of them have been visited for DENY_REST. */
  ghost predicate Installed(slots: seq<Ref>, slots': seq<Ref>, op: nat, f: nat, m: nat) {
    && |slots'| == |slots|
    && forall o :: 0 <= o < |slots| ==>
         slots'[o] == if o == op then Node(f) else if o < m && slots[o] == Nil then Dummy else slots[o]
  }

  /** Whether changing the table of `r` in place changes that of `q`. */
  ghost predicate Shares(r: Restriction, q: Restriction) {
    r.Restriction? && q.Restriction? && r.table == q.table >= 0 && !r.cow
  }

  /** From `q` to `q'` exactly the requests are lost that the new filter rejects and, with
      DENY_REST, those of opcodes that had no filter. */
  ghost predicate Narrowed(ops: nat, fs: seq<Filter>, ts: seq<Table>, q: Restriction, fs': seq<Filter>, ts': seq<Table>,
      q': Restriction,
                           op: nat, prog: nat, denyRest: bool) {
    && q.Restriction?
    && forall no: Rejections, o: nat, req: nat :: o < ops ==>
         (Allows(no, fs', ts', q', o, req) <==>
            && Allows(no, fs, ts, q, o, req) && (o == op ==> (prog, req) !in no)
            && (denyRest && o != op ==> SlotOf(ts, q, o) != Nil))
  }

  lemma DummyStored(fs: seq<Filter>, ts: seq<Table>, t: nat, i: nat)
    requires Exact(fs, ts, Nil) && t < |ts| && ts[t].Table? && i < |ts[t].slots| && ts[t].slots[i] == Nil
    ensures Exact(fs, ts[t := ts[t].(slots := ts[t].slots[i := Dummy])], Nil)
  {
    StoreExact(fs, ts, Dummy, t, i);
  }

  lemma DropOwned(ops: nat, ts: seq<Table>, rs: seq<Restriction>, r: nat)
    requires Owned(ops, ts, rs) && r < |rs| && rs[r].Restriction?
    ensures var t := rs[r].table;
            Owned(ops, if t >= 0 then ts[t := ts[t].(refs := ts[t].refs - 1)] else ts, rs[r := Dropped])
  {
    forall u | 0 <= u < |ts| ensures Owners(rs[r := Dropped], u) == Owners(rs, u) - if u == rs[r].table then 1 else 0 {
      OwnersUpdate(rs, r, Dropped, u);
    }
  }

  lemma AbandonOwned(ops: nat, ts0: seq<Table>, rs: seq<Restriction>, ts: seq<Table>, n: nat)
    requires Owned(ops, ts0, rs) && n == |ts0| && |ts| == n + 1 && ts == ts0 + [ts[n]] && ts[n].Table?
        && ts[n].refs == 1
    requires |ts[n].slots| == ops
    ensures Owned(ops, ts[n := ts[n].(refs := 0)], rs)
  {
    OwnersNone(rs, n);
  }

  lemma AdoptOwned(ops: nat, ts0: seq<Table>, rs: seq<Restriction>, ts: seq<Table>, r: nat, n: nat)
    requires Owned(ops, ts0, rs) && r < |rs| && rs[r].Restriction? && Targeted(ops, ts0, rs[r], ts, n)
    ensures var t := rs[r].table;
            && -1 <= t < |ts| && (t >= 0 ==> ts[t].Table?)
            && if t >= 0 && t != n then Owned(ops, ts[t := ts[t].(refs := ts[t].refs - 1)],
                 rs[r := Restriction(n, false)])
               else Owned(ops, ts, rs[r := rs[r].(table := n)])
  {
    var t := rs[r].table;
    if !(0 <= t && !rs[r].cow) {
      var r' := if t >= 0 then Restriction(n, false) else rs[r].(table := n);
      var rs' := rs[r := r'];
      OwnersNone(rs, n);
      forall u | 0 <= u < |ts| ensures Owners(rs', u) ==
          Owners(rs, u) - (if u == t then 1 else 0) + (if u == n then 1 else 0) {
        OwnersUpdate(rs, r, r', u);
      }
    } else {
      assert rs[r := rs[r].(table := n)] == rs;
    }
  }

  lemma InstalledOwned(ops: nat, ts: seq<Table>, rs: seq<Restriction>, ts': seq<Table>, n: nat)
    requires Owned(ops, ts, rs) && n < |ts| == |ts'| && ts' == ts[n := ts'[n]] && ts[n].Table? && ts'[n].Table?
    requires ts'[n].refs == ts[n].refs && |ts'[n].slots| == ops
    ensures Owned(ops, ts', rs)
  {
  }

  lemma SlotVerdict(no: Rejections, ops: nat, fs: seq<Filter>, ts: seq<Table>, rs: seq<Restriction>, q: nat, o: nat,
      req: nat)
    requires Owned(ops, ts, rs) && q < |rs| && rs[q].Restriction? && o < ops
    ensures Allows(no, fs, ts, rs[q], o, req) == Verdict(no, fs, SlotOf(ts, rs[q], o), req)
  {
  }

  /** A restriction whose table got the new filter. */
  lemma NarrowedFor(ops: nat, fs0: seq<Filter>, ts0: seq<Table>, rs0: seq<Restriction>, q: nat, fs1: seq<Filter>,
      slots: seq<Ref>,
                    fs: seq<Filter>, ts: seq<Table>, r': Restriction, n: nat, op: nat, prog: nat, denyRest: bool)
    requires Closed(fs0, ts0, Nil) && Owned(ops, ts0, rs0) && q < |rs0| && rs0[q].Restriction?
    requires |slots| == ops && op < ops && forall o :: 0 <= o < ops ==> slots[o] == SlotOf(ts0, rs0[q], o)
    requires Kept(fs0, fs1) && |fs1| == |fs0| && fs == fs1 + [Filter(1, prog, slots[op])] && Closed(fs, ts, Nil)
    requires n < |ts| && ts[n].Table? && r'.Restriction? && r'.table == n
    requires Installed(slots, ts[n].slots, op, |fs1|, if denyRest then ops else 0)
    ensures Narrowed(ops, fs0, ts0, rs0[q], fs, ts, r', op, prog, denyRest)
  {
    assert Kept(fs0, fs);
    forall no: Rejections, o: nat, req: nat | o < ops
      ensures Allows(no, fs, ts, r', o, req) <==>
                && Allows(no, fs0, ts0, rs0[q], o, req) && (o == op ==> (prog, req) !in no)
                && (denyRest && o != op ==> SlotOf(ts0, rs0[q], o) != Nil)
    {
      SlotVerdict(no, ops, fs0, ts0, rs0, q, o, req);
      SlotLive(fs0, ts0, rs0[q], o);
      var x := slots[o];
      assert Live(fs, ts[n].slots[o]);
      if o == op {
        assert Live(fs, fs[|fs1|].next) && Older(|fs1|, fs[|fs1|].next);
      }
      if o == op || x != Nil {
        VerdictKept(no, fs0, fs, ts, Nil, x, req);
      }
    }
  }

  lemma SlotLive(fs: seq<Filter>, ts: seq<Table>, r: Restriction, o: nat)
    requires Closed(fs, ts, Nil) && r.Restriction?
    ensures Live(fs, SlotOf(ts, r, o)) && Rank(SlotOf(ts, r, o)) <= |fs|
  {
  }

  lemma RegisterMeans(ops: nat, fs0: seq<Filter>, ts0: seq<Table>, rs0: seq<Restriction>, r: nat,
                      fs1: seq<Filter>, ts1: seq<Table>, rs1: seq<Restriction>, n: nat,
                      fs: seq<Filter>, ts: seq<Table>, op: nat, prog: nat, denyRest: bool)
    requires Closed(fs0, ts0, Nil) && Owned(ops, ts0, rs0) && r < |rs0| && rs0[r].Restriction? && op < ops
    requires |rs1| == |rs0| && rs1[r].Restriction? && rs1[r].table == n && forall q :: 0 <= q < |rs0| && q != r ==>
        rs1[q] == rs0[q]
    requires Kept(fs0, fs1) && |fs1| == |fs0| && |ts0| <= |ts1| == |ts| && n < |ts| && ts1[n].Table? && ts[n].Table?
    requires if rs0[r].table >= 0 && !rs0[r].cow then n == rs0[r].table else n == |ts0|
    requires forall u :: 0 <= u < |ts0| && ts0[u].Table? ==> ts1[u].Table? && ts1[u].slots == ts0[u].slots
    requires |ts1[n].slots| == ops && forall o :: 0 <= o < ops ==> ts1[n].slots[o] == SlotOf(ts0, rs0[r], o)
    requires fs == fs1 + [Filter(1, prog, ts1[n].slots[op])] && ts == ts1[n := ts[n]] && Closed(fs, ts, Nil)
    requires Installed(ts1[n].slots, ts[n].slots, op, |fs1|, if denyRest then ops else 0)
    ensures forall q :: 0 <= q < |rs0| ==>
              if q == r || Shares(rs0[r], rs0[q])
                  then Narrowed(ops, fs0, ts0, rs0[q], fs, ts, rs1[q], op, prog, denyRest)
              else Agree(fs0, ts0, rs0[q], fs, ts, rs1[q])
  {
    hide Narrowed, Agree, Installed, Closed;
    forall q | 0 <= q < |rs0|
      ensures if q == r || Shares(rs0[r], rs0[q])
          then Narrowed(ops, fs0, ts0, rs0[q], fs, ts, rs1[q], op, prog, denyRest)
              else Agree(fs0, ts0, rs0[q], fs, ts, rs1[q])
    {
      if q == r || Shares(rs0[r], rs0[q]) {
        NarrowedFor(ops, fs0, ts0, rs0, q, fs1, ts1[n].slots, fs, ts, rs1[q], n, op, prog, denyRest);
      } else {
        AgreeKept(fs0, ts0, fs, ts, rs0[q]);
      }
    }
  }
}

/** Chains of mbufs as linked segments, the bytes they hold, and the edits made of them. */
module MbufChains {
  import opened Basics
  import opened MbufMem

  // ---- Segments ----

  ghost function Members(c: seq<Id>): set<Id> { set x | x in c }

  ghost predicate Apart(a: seq<Id>, b: seq<Id>) { forall x :: x in a ==> x !in b }

  /** Where a chain that goes through c and then to end begins. */
  ghost function Head(c: seq<Id>, end: Option<Id>): Option<Id> { if c == [] then end else Some(c[0]) }

  /** Following next pointers through c leads to end. */
  ghost predicate LinkedTo(mbufs: map<Id, Mbuf>, c: seq<Id>, end: Option<Id>) {
    && Distinct(c) && (forall i :: 0 <= i < |c| ==> c[i] in mbufs)
    && (forall i {:trigger mbufs[c[i]]} :: 0 <= i < |c| && c[i] in mbufs ==>
          mbufs[c[i]].next == if i + 1 < |c| then Some(c[i + 1]) else end)
  }

  lemma {:induction false} SegJoin(mbufs: map<Id, Mbuf>, p: seq<Id>, q: seq<Id>, end: Option<Id>)
    requires LinkedTo(mbufs, p, Head(q, end)) && LinkedTo(mbufs, q, end) && Apart(p, q)
    ensures LinkedTo(mbufs, p + q, end)
  {
    var c := p + q;
    forall i, j | 0 <= i < j < |c| ensures c[i] != c[j] {
      if i < |p| <= j { assert c[i] in p && c[j] in q; }
    }
    forall i | 0 <= i < |c| && c[i] in mbufs
      ensures mbufs[c[i]].next == if i + 1 < |c| then Some(c[i + 1]) else end
    {
      if i < |p| { assert c[i] == p[i]; } else { assert c[i] == q[i - |p|]; }
    }
  }

  lemma {:induction false} SegSplit(mbufs: map<Id, Mbuf>, p: seq<Id>, q: seq<Id>, end: Option<Id>)
    requires LinkedTo(mbufs, p + q, end)
    ensures LinkedTo(mbufs, p, Head(q, end)) && LinkedTo(mbufs, q, end) && Apart(p, q)
  {
    var c := p + q;
    assert forall i :: 0 <= i < |p| ==> c[i] == p[i];
    assert forall i :: 0 <= i < |q| ==> c[|p| + i] == q[i];
    forall i | 0 <= i < |p| && p[i] in mbufs
      ensures mbufs[p[i]].next == if i + 1 < |p| then Some(p[i + 1]) else Head(q, end)
    {
      assert mbufs[c[i]].next == if i + 1 < |c| then Some(c[i + 1]) else end;
    }
    forall i | 0 <= i < |q| && q[i] in mbufs
      ensures mbufs[q[i]].next == if i + 1 < |q| then Some(q[i + 1]) else end
    {
      assert mbufs[c[|p| + i]].next == if |p| + i + 1 < |c| then Some(c[|p| + i + 1]) else end;
    }
    forall x | x in p ensures x !in q {
      var i :| 0 <= i < |p| && p[i] == x;
      forall j | 0 <= j < |q| ensures q[j] != x { assert c[i] != c[|p| + j]; }
    }
  }

  lemma {:induction false} SegFrame(mem: Mem, mem': Mem, c: seq<Id>, end: Option<Id>, d: set<Id>)
    requires LinkedTo(mem.mbufs, c, end) && Untouched(mem, mem', d) && forall x :: x in c ==> x !in d
    ensures LinkedTo(mem'.mbufs, c, end) && ChainBytes(mem', c) == ChainBytes(mem, c)
  {
    forall i | 0 <= i < |c| ensures c[i] in mem'.mbufs && mem'.mbufs[c[i]] == mem.mbufs[c[i]] {
      assert c[i] in c;
    }
    forall i | 0 <= i < |c| ensures Bytes(mem', c[i]) == Bytes(mem, c[i]) {
      assert c[i] in c;
    }
    SameBytes(mem, mem', c);
  }

  // ---- Bytes ----

  ghost function ChainBytes(mem: Mem, c: seq<Id>): seq<byte> {
    if c == [] then [] else Bytes(mem, c[0]) + ChainBytes(mem, c[1..])
  }

  lemma {:induction false} SameBytes(mem: Mem, mem': Mem, c: seq<Id>)
    requires forall i :: 0 <= i < |c| ==> Bytes(mem', c[i]) == Bytes(mem, c[i])
    ensures ChainBytes(mem', c) == ChainBytes(mem, c)
  {
    if c != [] { SameBytes(mem, mem', c[1..]); }
  }

  lemma {:induction false} BytesConcat(mem: Mem, p: seq<Id>, q: seq<Id>)
    ensures ChainBytes(mem, p + q) == ChainBytes(mem, p) + ChainBytes(mem, q)
  {
    if p == [] { assert p + q == q; } else {
      assert (p + q)[1..] == p[1..] + q && (p + q)[0] == p[0];
      BytesConcat(mem, p[1..], q);
      hide Bytes;
      assert Bytes(mem, p[0]) + (ChainBytes(mem, p[1..]) + ChainBytes(mem, q))
          == Bytes(mem, p[0]) + ChainBytes(mem, p[1..]) + ChainBytes(mem, q);
    }
  }

  lemma {:induction false} BytesOne(mem: Mem, i: Id)
    ensures ChainBytes(mem, [i]) == Bytes(mem, i)
  {
    assert [i][1..] == [];
  }

  // ---- One mbuf takes over the bytes of another ----

  predicate AbsorbFits(mem: Mem, m: Id, n: Id) {
    && m in mem.mbufs && n in mem.mbufs && m != n
    && FitsIn(mem.mbufs[m], mem.stores) && FitsIn(mem.mbufs[n], mem.stores)
    && mem.mbufs[m].off + mem.mbufs[m].len + mem.mbufs[n].len <= |mem.stores[mem.mbufs[m].store].bytes|
  }

  lemma {:induction false} RoomFor(mem: Mem, m: Id, n: Id)
    requires Ok(mem) && m in mem.mbufs && n in mem.mbufs && m != n && Len(mem, n) <= Trailing(mem, m)
    ensures AbsorbFits(mem, m, n)
  {
  }

  /** m takes n's bytes behind its own and goes on where told; n is released. */
  function Absorb(mem: Mem, m: Id, n: Id, next: Option<Id>): Mem
    requires AbsorbFits(mem, m, n)
  {
    FreeOne(SetNext(Extend(mem, m, Bytes(mem, n)), m, next), n)
  }

  lemma {:induction false} AbsorbOk(mem: Mem, m: Id, n: Id, next: Option<Id>)
    requires Ok(mem) && m in mem.mbufs && n in mem.mbufs && m != n
    requires Len(mem, n) <= Trailing(mem, m)
    ensures AbsorbFits(mem, m, n)
    ensures var mem' := Absorb(mem, m, n, next);
            && Ok(mem') && Untouched(mem, mem', {m, n}) && n !in mem'.mbufs && m in mem'.mbufs
            && mem'.mbufs[m] == mem.mbufs[m].(len := mem.mbufs[m].len + mem.mbufs[n].len, next := next)
            && Bytes(mem', m) == Bytes(mem, m) + Bytes(mem, n)
            && mem'.mbufs == mem.mbufs[m := mem'.mbufs[m]] - {n}
  {
    hide Ok, Untouched, Bytes, FreeOne, SetNext, Extend;
    FitsOf(mem, m);
    FitsOf(mem, n);
    RoomFor(mem, m, n);
    SliceLength(mem, n);
    var mem1 := Extend(mem, m, Bytes(mem, n));
    ExtendOk(mem, m, Bytes(mem, n));
    ExtendMbufs(mem, m, Bytes(mem, n));
    var mem2 := SetNext(mem1, m, next);
    SetNextOk(mem1, m, next);
    UntouchedTrans(mem, mem1, mem2, {m}, {m});
    FitsOf(mem2, n);
    FreeOneOk(mem2, n);
    UntouchedWiden(mem, mem2, {m}, {m, n});
    UntouchedTrans(mem, mem2, FreeOne(mem2, n), {m, n}, {n});
    UntouchedAt(mem2, FreeOne(mem2, n), {n}, m);
  }

  lemma {:induction false} SliceLength(mem: Mem, i: Id)
    requires i in mem.mbufs && FitsIn(mem.mbufs[i], mem.stores)
    ensures |Bytes(mem, i)| == mem.mbufs[i].len
  {
  }

  lemma {:induction false} ExtendMbufs(mem: Mem, i: Id, d: seq<byte>)
    requires i in mem.mbufs && FitsIn(mem.mbufs[i], mem.stores)
    requires mem.mbufs[i].off + mem.mbufs[i].len + |d| <= |mem.stores[mem.mbufs[i].store].bytes|
    ensures Extend(mem, i, d).mbufs == mem.mbufs[i := mem.mbufs[i].(len := mem.mbufs[i].len + |d|)]
  {
  }

  lemma {:induction false} UntouchedWiden(mem: Mem, mem': Mem, c: set<Id>, d: set<Id>)
    requires Untouched(mem, mem', c) && c <= d
    ensures Untouched(mem, mem', d)
  {
  }

  lemma {:induction false} UntouchedAt(mem: Mem, mem': Mem, c: set<Id>, i: Id)
    requires Untouched(mem, mem', c) && i in mem.mbufs && i !in c
    ensures i in mem'.mbufs && mem'.mbufs[i] == mem.mbufs[i] && Bytes(mem', i) == Bytes(mem, i)
  {
  }

  // ---- Rearranging a chain ----

  /** The chain a became the chain c: same bytes, counts right, nobody else touched. Every mbuf
      in it was in it or is new, and every mbuf no longer in it has been released. */
  ghost predicate Rearranged(mem: Mem, mem': Mem, a: seq<Id>, c: seq<Id>) {
    && Ok(mem') && LinkedTo(mem'.mbufs, c, None) && ChainBytes(mem', c) == ChainBytes(mem, a)
    && Untouched(mem, mem', Members(a)) && (forall x :: x in c ==> x in a || x !in mem.mbufs)
    && Live(mem') == Live(mem) - Members(a) + Members(c)
  }

  /** The mbufs not yet released. */
  ghost function Live(mem: Mem): set<Id> { mem.mbufs.Keys }

  lemma {:induction false} RearrangedTrans(m0: Mem, m1: Mem, m2: Mem, a: seq<Id>, b: seq<Id>, c: seq<Id>)
    requires Rearranged(m0, m1, a, b) && Rearranged(m1, m2, b, c)
    ensures Rearranged(m0, m2, a, c)
  {
    UntouchedTrans(m0, m1, m2, Members(a), Members(b));
    LiveTrans(m0, m1, m2, a, b, c);
    forall x | x in c ensures x in a || x !in m0.mbufs {
      if x in m0.mbufs && x !in a { UntouchedAt(m0, m1, Members(a), x); }
    }
  }

  lemma {:induction false} LiveTrans(m0: Mem, m1: Mem, m2: Mem, a: seq<Id>, b: seq<Id>, c: seq<Id>)
    requires Live(m1) == Live(m0) - Members(a) + Members(b) && Live(m2) == Live(m1) - Members(b) + Members(c)
    requires forall x :: x in b ==> x in a || x !in m0.mbufs
    ensures Live(m2) == Live(m0) - Members(a) + Members(c)
  {
    forall x ensures x in Live(m2) <==> x in Live(m0) - Members(a) + Members(c) {
      assert x in b ==> x in a || x !in Live(m0);
    }
  }

  lemma {:induction false} RearrangedSelf(mem: Mem, a: seq<Id>)
    requires Ok(mem) && LinkedTo(mem.mbufs, a, None)
    ensures Rearranged(mem, mem, a, a)
  {
    assert Members(a) <= Live(mem);
  }

  lemma {:induction false} Alone(mbufs: map<Id, Mbuf>, i: Id)
    requires i in mbufs
    ensures LinkedTo(mbufs, [i], mbufs[i].next)
  {
  }

  /** Inside a chain, m takes over its neighbour n. */
  lemma {:induction false} ChainAbsorb(mem: Mem, p: seq<Id>, m: Id, n: Id, q: seq<Id>)
    requires Ok(mem) && LinkedTo(mem.mbufs, p + ([m] + ([n] + q)), None)
    requires Len(mem, n) <= Trailing(mem, m)
    ensures m != n && m in mem.mbufs && n in mem.mbufs && mem.mbufs[m].next == Some(n)
    ensures mem.mbufs[n].next == Head(q, None)
    ensures AbsorbFits(mem, m, n)
    ensures Rearranged(mem, Absorb(mem, m, n, Head(q, None)), p + ([m] + ([n] + q)), p + ([m] + q))
  {
    hide Ok, Untouched, Absorb, Bytes, FitsIn, Trailing, Distinct, AbsorbFits;
    SegSplit(mem.mbufs, p, [m] + ([n] + q), None);
    SegSplit(mem.mbufs, [m], [n] + q, None);
    SegSplit(mem.mbufs, [n], q, None);
    FitsOf(mem, m);
    FitsOf(mem, n);
    assert m in [m] && n in [n] && n in [n] + q;
    RoomFor(mem, m, n);
    AbsorbOk(mem, m, n, Head(q, None));
    var mem' := Absorb(mem, m, n, Head(q, None));
    SegFrame(mem, mem', p, Some(m), {m, n});
    SegFrame(mem, mem', q, None, {m, n});
    Alone(mem'.mbufs, m);
    SegJoin(mem'.mbufs, [m], q, None);
    SegJoin(mem'.mbufs, p, [m] + q, None);
    AbsorbBytes(mem, mem', p, m, n, q);
    UntouchedWiden(mem, mem', {m, n}, Members(p + ([m] + ([n] + q))));
    AbsorbLive(mem, mem', p, m, n, q);
  }

  lemma {:induction false} AbsorbLive(mem: Mem, mem': Mem, p: seq<Id>, m: Id, n: Id, q: seq<Id>)
    requires Live(mem') == Live(mem) - {n} && LinkedTo(mem.mbufs, p + ([m] + ([n] + q)), None)
    ensures Live(mem') == Live(mem) - Members(p + ([m] + ([n] + q))) + Members(p + ([m] + q))
  {
    var c, d := p + ([m] + ([n] + q)), p + ([m] + q);
    SegSplit(mem.mbufs, p, [m] + ([n] + q), None);
    SegSplit(mem.mbufs, [m], [n] + q, None);
    SegSplit(mem.mbufs, [n], q, None);
    assert n in [n] && n in [n] + q && n in [m] + ([n] + q);
    assert Members(c) == Members(d) + {n};
    assert n !in Members(d);
    forall x | x in Members(c) ensures x in Live(mem) {
      var i :| 0 <= i < |c| && c[i] == x;
    }
  }

  lemma {:induction false} AbsorbBytes(mem: Mem, mem': Mem, p: seq<Id>, m: Id, n: Id, q: seq<Id>)
    requires ChainBytes(mem', p) == ChainBytes(mem, p) && ChainBytes(mem', q) == ChainBytes(mem, q)
    requires Bytes(mem', m) == Bytes(mem, m) + Bytes(mem, n)
    ensures ChainBytes(mem', p + ([m] + q)) == ChainBytes(mem, p + ([m] + ([n] + q)))
  {
    hide Bytes, ChainBytes;
    BytesConcat(mem', p, [m] + q);
    BytesConcat(mem', [m], q);
    BytesConcat(mem, p, [m] + ([n] + q));
    BytesConcat(mem, [m], [n] + q);
    BytesConcat(mem, [n], q);
    BytesOne(mem', m);
    BytesOne(mem, m);
    BytesOne(mem, n);
    assert Bytes(mem, m) + Bytes(mem, n) + ChainBytes(mem, q) == Bytes(mem, m) + (Bytes(mem, n) + ChainBytes(mem, q));
  }

  // ---- Releasing and replacing ----

  ghost function FreeAll(mem: Mem, c: seq<Id>): Mem
    decreases |c|
  {
    if c == [] then mem else FreeAll(FreeOne(mem, c[0]), c[1..])
  }

  lemma {:induction false} FreeAllOk(mem: Mem, c: seq<Id>)
    requires Ok(mem)
    ensures Ok(FreeAll(mem, c)) && Untouched(mem, FreeAll(mem, c), Members(c))
    ensures Live(FreeAll(mem, c)) == Live(mem) - Members(c)
    decreases |c|
  {
    hide Ok, Untouched, FreeOne;
    if c == [] {
      UntouchedSelf(mem);
    } else {
      var mem1 := FreeOne(mem, c[0]);
      FreeAny(mem, c[0]);
      FreeAllOk(mem1, c[1..]);
      assert Members(c) == {c[0]} + Members(c[1..]);
      UntouchedWiden(mem, mem1, {c[0]}, Members(c));
      UntouchedTrans(mem, mem1, FreeAll(mem1, c[1..]), Members(c), Members(c[1..]));
    }
  }

  lemma {:induction false} FreeAny(mem: Mem, i: Id)
    requires Ok(mem)
    ensures Ok(FreeOne(mem, i)) && Untouched(mem, FreeOne(mem, i), {i})
    ensures FreeOne(mem, i).mbufs == mem.mbufs - {i}
  {
    hide Untouched;
    if i in mem.mbufs { FreeOneOk(mem, i); } else { UntouchedSelf(mem); UntouchedWiden(mem, mem, {}, {i}); }
  }

  lemma {:induction false} UntouchedSelf(mem: Mem)
    ensures Untouched(mem, mem, {}) && Untouched(mem, mem, Members([]))
  {
  }

  /** The last mbuf of a segment is pointed elsewhere. */
  lemma {:induction false} SetEnd(mem: Mem, c: seq<Id>, end: Option<Id>, end': Option<Id>)
    requires Ok(mem) && c != [] && LinkedTo(mem.mbufs, c, end)
    ensures c[|c| - 1] in mem.mbufs
    ensures var mem' := SetNext(mem, c[|c| - 1], end');
            && Ok(mem') && LinkedTo(mem'.mbufs, c, end') && ChainBytes(mem', c) == ChainBytes(mem, c)
            && Untouched(mem, mem', {c[|c| - 1]})
  {
    hide Ok, Untouched, Bytes, SetNext;
    var k := |c| - 1;
    var mem' := SetNext(mem, c[k], end');
    SetNextOk(mem, c[k], end');
    SetEndLinked(mem.mbufs, c, end, end', mem'.mbufs);
    forall i | 0 <= i < |c| ensures Bytes(mem', c[i]) == Bytes(mem, c[i]) {
      if i < k { UntouchedAt(mem, mem', {c[k]}, c[i]); }
    }
    SameBytes(mem, mem', c);
  }

  lemma {:induction false} SetEndLinked(mbufs: map<Id, Mbuf>, c: seq<Id>, end: Option<Id>, end': Option<Id>,
                                        mbufs': map<Id, Mbuf>)
    requires c != [] && LinkedTo(mbufs, c, end)
    requires mbufs' == mbufs[c[|c| - 1] := mbufs[c[|c| - 1]].(next := end')]
    ensures LinkedTo(mbufs', c, end')
  {
  }

  /** What relinking does: new takes the place of old between p and q, and old is released. */
  ghost function Replace(mem: Mem, p: seq<Id>, gone: seq<Id>, q: seq<Id>, came: seq<Id>): Mem
    requires came != [] && came[|came| - 1] in mem.mbufs && (p != [] ==> p[|p| - 1] in mem.mbufs)
  {
    var mem1 := SetNext(mem, came[|came| - 1], Head(q, None));
    var mem2 := if p == [] then mem1 else SetNext(mem1, p[|p| - 1], Some(came[0]));
    FreeAll(mem2, gone)
  }

  lemma {:induction false} ReplaceOk(mem: Mem, p: seq<Id>, gone: seq<Id>, q: seq<Id>, came: seq<Id>, x: Option<Id>)
    requires Ok(mem) && LinkedTo(mem.mbufs, p + (gone + q), None) && came != [] && LinkedTo(mem.mbufs, came, x)
    requires Apart(came, p + (gone + q)) && ChainBytes(mem, came) == ChainBytes(mem, gone)
    ensures came[|came| - 1] in mem.mbufs && (p != [] ==> p[|p| - 1] in mem.mbufs)
    ensures var mem' := Replace(mem, p, gone, q, came);
            && Ok(mem') && LinkedTo(mem'.mbufs, p + (came + q), None)
            && ChainBytes(mem', p + (came + q)) == ChainBytes(mem, p + (gone + q))
            && Untouched(mem, mem', Members(p + (gone + q)) + Members(came))
  {
    hide Ok, Untouched, ChainBytes, SetNext, FreeAll, LinkedTo;
    ReplaceParts(mem.mbufs, p, gone, q, came, x);
    var all := Members(p + (gone + q)) + Members(came);
    var last := came[|came| - 1];
    SetEnd(mem, came, x, Head(q, None));
    var mem1 := SetNext(mem, last, Head(q, None));
    SegFrame(mem, mem1, p, Head(gone + q, None), {last});
    SegFrame(mem, mem1, q, None, {last});
    UntouchedWiden(mem, mem1, {last}, all);
    var mem2 := if p == [] then mem1 else SetNext(mem1, p[|p| - 1], Some(came[0]));
    if p == [] {
      NothingLinked(mem2, Some(came[0]));
    } else {
      SetEnd(mem1, p, Head(gone + q, None), Some(came[0]));
      SegFrame(mem1, mem2, came, Head(q, None), {p[|p| - 1]});
      SegFrame(mem1, mem2, q, None, {p[|p| - 1]});
      UntouchedTrans(mem, mem1, mem2, all, {p[|p| - 1]});
    }
    FreeAllOk(mem2, gone);
    var mem3 := FreeAll(mem2, gone);
    SegFrame(mem2, mem3, p, Some(came[0]), Members(gone));
    SegFrame(mem2, mem3, came, Head(q, None), Members(gone));
    SegFrame(mem2, mem3, q, None, Members(gone));
    UntouchedTrans(mem, mem2, mem3, all, Members(gone));
    SegJoin(mem3.mbufs, came, q, None);
    SegJoin(mem3.mbufs, p, came + q, None);
    ReplaceBytes(mem, mem3, p, gone, q, came);
  }

  lemma {:induction false} NothingLinked(mem: Mem, end: Option<Id>)
    ensures LinkedTo(mem.mbufs, [], end)
  {
  }

  lemma {:induction false} ReplaceParts(mbufs: map<Id, Mbuf>, p: seq<Id>, gone: seq<Id>, q: seq<Id>, came: seq<Id>,
                                        x: Option<Id>)
    requires LinkedTo(mbufs, p + (gone + q), None) && came != [] && LinkedTo(mbufs, came, x)
    requires Apart(came, p + (gone + q))
    ensures LinkedTo(mbufs, p, Head(gone + q, None)) && LinkedTo(mbufs, q, None)
    ensures came[|came| - 1] in mbufs && (p != [] ==> p[|p| - 1] in mbufs)
    ensures Apart(p, came + q) && Apart(came, q) && Apart(came, p) && Apart(q, came)
    ensures forall y :: y in p || y in q || y in came ==> y !in Members(gone)
    ensures forall y :: y in q || y in came ==> y !in p
    ensures forall y :: y in p || y in q ==> y !in came
  {
    SegSplit(mbufs, p, gone + q, None);
    SegSplit(mbufs, gone, q, None);
    hide LinkedTo;
  }

  lemma {:induction false} ReplaceBytes(mem: Mem, mem': Mem, p: seq<Id>, gone: seq<Id>, q: seq<Id>, came: seq<Id>)
    requires ChainBytes(mem', p) == ChainBytes(mem, p) && ChainBytes(mem', q) == ChainBytes(mem, q)
    requires ChainBytes(mem', came) == ChainBytes(mem, gone)
    ensures ChainBytes(mem', p + (came + q)) == ChainBytes(mem, p + (gone + q))
  {
    hide ChainBytes;
    BytesConcat(mem', p, came + q);
    BytesConcat(mem', came, q);
    BytesConcat(mem, p, gone + q);
    BytesConcat(mem, gone, q);
  }

  /** New mbufs with the bytes of old ones take their place. */
  lemma {:induction false} ReplaceNew(mem0: Mem, mem: Mem, p: seq<Id>, gone: seq<Id>, q: seq<Id>, came: seq<Id>,
                                      x: Option<Id>)
    requires Ok(mem0) && Ok(mem) && Untouched(mem0, mem, {}) && LinkedTo(mem0.mbufs, p + (gone + q), None)
    requires came != [] && LinkedTo(mem.mbufs, came, x) && AllNew(came, mem0)
    requires ChainBytes(mem, came) == ChainBytes(mem0, gone) && Live(mem) == Live(mem0) + Members(came)
    ensures came[|came| - 1] in mem.mbufs && (p != [] ==> p[|p| - 1] in mem.mbufs)
    ensures Rearranged(mem0, Replace(mem, p, gone, q, came), p + (gone + q), p + (came + q))
  {
    hide Ok, Untouched, ChainBytes, Replace, LinkedTo;
    var c := p + (gone + q);
    NewApart(mem0, c, came);
    SegFrame(mem0, mem, c, None, {});
    SegSplit(mem0.mbufs, p, gone + q, None);
    SegSplit(mem0.mbufs, gone, q, None);
    SegFrame(mem0, mem, gone, Head(q, None), {});
    ReplaceOk(mem, p, gone, q, came, x);
    var mem' := Replace(mem, p, gone, q, came);
    NewUntouched(mem0, mem, mem', c, came);
    ReplaceKeys(mem, p, gone, q, came);
    ReplaceMembers(mem0, p, gone, q, came);
    ReplaceLive(mem0, mem, mem', p, gone, q, came);
  }

  lemma {:induction false} NextLive(mem: Mem, i: Id, next: Option<Id>)
    requires i in mem.mbufs
    ensures Live(SetNext(mem, i, next)) == Live(mem)
  {
  }

  lemma {:induction false} ReplaceKeys(mem: Mem, p: seq<Id>, gone: seq<Id>, q: seq<Id>, came: seq<Id>)
    requires Ok(mem) && came != [] && came[|came| - 1] in mem.mbufs && (p != [] ==> p[|p| - 1] in mem.mbufs)
    ensures Live(Replace(mem, p, gone, q, came)) == Live(mem) - Members(gone)
  {
    hide Ok, Untouched, SetNext, FreeAll;
    var mem1 := SetNext(mem, came[|came| - 1], Head(q, None));
    SetNextOk(mem, came[|came| - 1], Head(q, None));
    NextLive(mem, came[|came| - 1], Head(q, None));
    if p == [] {
      FreeAllOk(mem1, gone);
    } else {
      SetNextOk(mem1, p[|p| - 1], Some(came[0]));
      NextLive(mem1, p[|p| - 1], Some(came[0]));
      FreeAllOk(SetNext(mem1, p[|p| - 1], Some(came[0])), gone);
    }
  }

  lemma {:induction false} ReplaceLive(mem0: Mem, mem: Mem, mem': Mem, p: seq<Id>, gone: seq<Id>, q: seq<Id>,
                                       came: seq<Id>)
    requires Live(mem) == Live(mem0) + Members(came) && Live(mem') == Live(mem) - Members(gone) && AllNew(came, mem0)
    requires LinkedTo(mem0.mbufs, p + (gone + q), None)
    ensures Live(mem') == Live(mem0) - Members(p + (gone + q)) + Members(p + (came + q))
  {
    var c := p + (gone + q);
    forall x | x in c ensures x in Live(mem0) {
      var i :| 0 <= i < |c| && c[i] == x;
    }
    SegSplit(mem0.mbufs, p, gone + q, None);
    SegSplit(mem0.mbufs, gone, q, None);
    hide LinkedTo;
    forall x ensures x in Live(mem') <==> x in Live(mem0) - Members(c) + Members(p + (came + q)) {
    }
  }

  ghost predicate AllNew(came: seq<Id>, mem0: Mem) { forall x :: x in came ==> x !in mem0.mbufs }

  lemma {:induction false} NewApart(mem0: Mem, c: seq<Id>, came: seq<Id>)
    requires LinkedTo(mem0.mbufs, c, None) && AllNew(came, mem0)
    ensures Apart(came, c)
  {
    forall x | x in came ensures x !in c {
      assert forall i :: 0 <= i < |c| ==> c[i] in mem0.mbufs;
    }
  }

  lemma {:induction false} NewUntouched(mem0: Mem, mem: Mem, mem': Mem, c: seq<Id>, came: seq<Id>)
    requires Untouched(mem0, mem, {}) && Untouched(mem, mem', Members(c) + Members(came)) && AllNew(came, mem0)
    ensures Untouched(mem0, mem', Members(c))
  {
    hide Untouched;
    UntouchedWiden(mem0, mem, {}, Members(c));
    UntouchedTrans(mem0, mem, mem', Members(c), Members(c) + Members(came));
  }

  lemma {:induction false} ReplaceMembers(mem0: Mem, p: seq<Id>, gone: seq<Id>, q: seq<Id>, came: seq<Id>)
    requires AllNew(came, mem0)
    ensures forall x :: x in p + (came + q) ==> x in p + (gone + q) || x !in mem0.mbufs
  {
  }
}

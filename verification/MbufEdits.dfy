/** Cutting a chain in two: the edits m_split makes, and what they leave. */
module MbufEdits {
  import opened Basics
  import opened MbufMem
  import opened MbufChains

  lemma {:induction false} ChainLength(mem: Mem, c: seq<Id>, i: Id)
    requires Ok(mem) && i in mem.mbufs
    ensures |Bytes(mem, i)| == mem.mbufs[i].len == Len(mem, i)
  {
    FitsOf(mem, i);
  }

  /** Cut behind m: m keeps its first len bytes, n goes on with the rest and with q. */
  function CutAt(mem: Mem, m: Id, n: Id, len: nat): Mem
    requires m in mem.mbufs && n in mem.mbufs
  {
    var mem1 := SetNext(mem, n, mem.mbufs[m].next);
    SetMbuf(mem1, m, mem.mbufs[m].(len := len, next := None))
  }

  lemma {:induction false} CutAtOk(mem: Mem, m: Id, n: Id, len: nat)
    requires Ok(mem) && m in mem.mbufs && n in mem.mbufs && m != n && len <= mem.mbufs[m].len
    ensures var mem' := CutAt(mem, m, n, len);
            && Ok(mem') && Untouched(mem, mem', {m, n}) && len <= |Bytes(mem, m)|
            && Bytes(mem', m) == Bytes(mem, m)[..len] && Bytes(mem', n) == Bytes(mem, n)
            && m in mem'.mbufs && n in mem'.mbufs
            && mem'.mbufs[m].next == None && mem'.mbufs[n].next == mem.mbufs[m].next
  {
    hide Ok, Untouched;
    FitsOf(mem, m);
    var mem1 := SetNext(mem, n, mem.mbufs[m].next);
    SetNextOk(mem, n, mem.mbufs[m].next);
    UntouchedAt(mem, mem1, {n}, m);
    FitsOf(mem1, m);
    SetMbufOk(mem1, m, mem.mbufs[m].(len := len, next := None));
    var mem' := CutAt(mem, m, n, len);
    UntouchedAt(mem1, mem', {m}, n);
    UntouchedWiden(mem, mem1, {n}, {m, n});
    UntouchedTrans(mem, mem1, mem', {m, n}, {m});
    Shorter(mem.stores[mem.mbufs[m].store].bytes, mem.mbufs[m].off, mem.mbufs[m].len, len);
  }

  lemma {:induction false} Shorter(s: seq<byte>, off: nat, n: nat, len: nat)
    requires off + n <= |s| && len <= n
    ensures s[off..off + n][..len] == s[off..off + len]
  {
  }

  lemma {:induction false} SplitOk(mem: Mem, p: seq<Id>, m: Id, q: seq<Id>, n: Id, len: nat)
    requires Ok(mem) && LinkedTo(mem.mbufs, p + ([m] + q), None) && n in mem.mbufs && n !in p + ([m] + q)
    requires len <= Len(mem, m) == |Bytes(mem, m)| && Bytes(mem, n) == Bytes(mem, m)[len..]
    ensures m in mem.mbufs && m != n
    ensures var mem' := CutAt(mem, m, n, len); var at := |ChainBytes(mem, p)| + len;
            && Ok(mem') && LinkedTo(mem'.mbufs, p + [m], None) && LinkedTo(mem'.mbufs, [n] + q, None)
            && Apart(p + [m], [n] + q)
            && at <= |ChainBytes(mem, p + ([m] + q))|
            && ChainBytes(mem', p + [m]) == ChainBytes(mem, p + ([m] + q))[..at]
            && ChainBytes(mem', [n] + q) == ChainBytes(mem, p + ([m] + q))[at..]
            && Untouched(mem, mem', Members(p + ([m] + q)) + {n})
  {
    hide Ok, Untouched, Bytes, ChainBytes, CutAt, Distinct;
    SegSplit(mem.mbufs, p, [m] + q, None);
    SegSplit(mem.mbufs, [m], q, None);
    assert m in [m] && m in [m] + q;
    assert mem.mbufs[m].next == Head(q, None);
    CutAtOk(mem, m, n, len);
    var mem' := CutAt(mem, m, n, len);
    assert forall x :: x in p || x in q ==> x != m && x != n;
    SegFrame(mem, mem', p, Some(m), {m, n});
    SegFrame(mem, mem', q, None, {m, n});
    Alone(mem'.mbufs, m);
    Alone(mem'.mbufs, n);
    SegJoin(mem'.mbufs, p, [m], None);
    SegJoin(mem'.mbufs, [n], q, None);
    UntouchedWiden(mem, mem', {m, n}, Members(p + ([m] + q)) + {n});
    SplitBytes(mem, mem', p, m, q, n, len);
  }

  lemma {:induction false} SplitBytes(mem: Mem, mem': Mem, p: seq<Id>, m: Id, q: seq<Id>, n: Id, len: nat)
    requires ChainBytes(mem', p) == ChainBytes(mem, p) && ChainBytes(mem', q) == ChainBytes(mem, q)
    requires len <= |Bytes(mem, m)| && Bytes(mem', m) == Bytes(mem, m)[..len] && Bytes(mem', n) == Bytes(mem, m)[len..]
    ensures var at := |ChainBytes(mem, p)| + len; var all := ChainBytes(mem, p + ([m] + q));
            at <= |all| && ChainBytes(mem', p + [m]) == all[..at] && ChainBytes(mem', [n] + q) == all[at..]
  {
    hide ChainBytes, Bytes;
    BytesConcat(mem, p, [m] + q);
    BytesConcat(mem, [m], q);
    BytesConcat(mem', p, [m]);
    BytesConcat(mem', [n], q);
    BytesOne(mem, m);
    BytesOne(mem', m);
    BytesOne(mem', n);
  }

  /** Cut between m and q. */
  lemma {:induction false} SplitBetween(mem: Mem, p: seq<Id>, m: Id, q: seq<Id>)
    requires Ok(mem) && LinkedTo(mem.mbufs, p + ([m] + q), None)
    ensures m in mem.mbufs && mem.mbufs[m].next == Head(q, None)
    ensures var mem' := SetNext(mem, m, None); var at := |ChainBytes(mem, p)| + |Bytes(mem, m)|;
            && Ok(mem') && LinkedTo(mem'.mbufs, p + [m], None) && LinkedTo(mem'.mbufs, q, None) && Apart(p + [m], q)
            && at <= |ChainBytes(mem, p + ([m] + q))|
            && ChainBytes(mem', p + [m]) == ChainBytes(mem, p + ([m] + q))[..at]
            && ChainBytes(mem', q) == ChainBytes(mem, p + ([m] + q))[at..]
            && Untouched(mem, mem', Members(p + ([m] + q)))
  {
    hide Ok, Untouched, Bytes, ChainBytes, SetNext, Distinct;
    SegSplit(mem.mbufs, p, [m] + q, None);
    SegSplit(mem.mbufs, [m], q, None);
    assert m in [m] && m in [m] + q;
    assert mem.mbufs[m].next == Head(q, None);
    SetNextOk(mem, m, None);
    var mem' := SetNext(mem, m, None);
    SegFrame(mem, mem', p, Some(m), {m});
    SegFrame(mem, mem', q, None, {m});
    Alone(mem'.mbufs, m);
    SegJoin(mem'.mbufs, p, [m], None);
    UntouchedWiden(mem, mem', {m}, Members(p + ([m] + q)));
    BytesConcat(mem, p, [m] + q);
    BytesConcat(mem, [m], q);
    BytesConcat(mem', p, [m]);
    BytesOne(mem, m);
    BytesOne(mem', m);
  }

  // ---- Changing one mbuf ----

  /** Something happened to mbuf n inside the chain z + [n] + r only: it kept its link and Live. */
  lemma {:induction false} InnerChange(mem: Mem, mem': Mem, z: seq<Id>, n: Id, r: seq<Id>)
    requires LinkedTo(mem.mbufs, z + ([n] + r), None) && Untouched(mem, mem', {n})
    requires n in mem.mbufs && n in mem'.mbufs && mem'.mbufs[n].next == mem.mbufs[n].next
    ensures LinkedTo(mem'.mbufs, z + ([n] + r), None)
    ensures ChainBytes(mem', z + ([n] + r)) == ChainBytes(mem, z) + Bytes(mem', n) + ChainBytes(mem, r)
    ensures ChainBytes(mem, z + ([n] + r)) == ChainBytes(mem, z) + Bytes(mem, n) + ChainBytes(mem, r)
    ensures ChainBytes(mem', z) == ChainBytes(mem, z) && ChainBytes(mem', r) == ChainBytes(mem, r)
  {
    hide Untouched, Bytes, ChainBytes, Distinct;
    SegSplit(mem.mbufs, z, [n] + r, None);
    SegSplit(mem.mbufs, [n], r, None);
    assert n in [n] && n in [n] + r;
    assert mem.mbufs[n].next == Head(r, None);
    SegFrame(mem, mem', z, Some(n), {n});
    SegFrame(mem, mem', r, None, {n});
    Alone(mem'.mbufs, n);
    SegJoin(mem'.mbufs, [n], r, None);
    SegJoin(mem'.mbufs, z, [n] + r, None);
    ThreeBytes(mem, z, n, r);
    ThreeBytes(mem', z, n, r);
  }

  lemma {:induction false} ThreeBytes(mem: Mem, z: seq<Id>, n: Id, r: seq<Id>)
    ensures ChainBytes(mem, z + ([n] + r)) == ChainBytes(mem, z) + Bytes(mem, n) + ChainBytes(mem, r)
  {
    hide Bytes, ChainBytes;
    BytesConcat(mem, z, [n] + r);
    BytesConcat(mem, [n], r);
    BytesOne(mem, n);
  }

  lemma {:induction false} NextIs(mbufs: map<Id, Mbuf>, z: seq<Id>, n: Id, r: seq<Id>)
    requires LinkedTo(mbufs, z + ([n] + r), None)
    ensures n in mbufs && mbufs[n].next == Head(r, None)
  {
    SegSplit(mbufs, z, [n] + r, None);
    SegSplit(mbufs, [n], r, None);
    assert n in [n] && [n][0] == n;
    assert mbufs[[n][0]].next == Head(r, None);
  }
}

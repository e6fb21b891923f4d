/** Reading a chain: its length, and m_copydata. */
module MbufRead {
  import opened Basics
  import opened MbufMem
  import opened MbufChains
  import opened MbufEdits
  import opened MbufPool

  /** The length of a chain. */
  method Length(pool: Pool, m0: Option<Id>, ghost q: seq<Id>) returns (n: nat)
    requires Ok(pool.mem) && m0 == Head(q, None) && LinkedTo(pool.mem.mbufs, q, None)
    ensures n == |ChainBytes(pool.mem, q)|
  {
    n := 0;
    var m := m0;
    ghost var k: nat := 0;
    NoBytes(pool.mem);
    assert q[..0] == [];
    while m.Some?
      invariant k <= |q| && m == Head(q[k..], None) && n == |ChainBytes(pool.mem, q[..k])|
      decreases |q| - k
    {
      PrefixBytes(pool.mem, q, k);
      n := n + Len(pool.mem, m.value);
      m := pool.mem.mbufs[m.value].next;
      k := k + 1;
    }
    assert q[..k] == q;
  }

  lemma {:induction false} CopyStep(mem: Mem, q: seq<Id>, k: nat)
    requires Ok(mem) && LinkedTo(mem.mbufs, q, None) && k < |q|
    ensures q[k] in mem.mbufs && mem.mbufs[q[k]].next == Head(q[k + 1..], None) && |Bytes(mem, q[k])| == Len(mem, q[k])
    ensures ChainBytes(mem, q[..k + 1]) == ChainBytes(mem, q[..k]) + Bytes(mem, q[k])
    ensures ChainBytes(mem, q[..k]) + Bytes(mem, q[k]) <= ChainBytes(mem, q)
  {
    ChainLength(mem, [], q[k]);
    PrefixBytes(mem, q, k);
    hide Ok, LinkedTo, ChainBytes, Bytes;
    assert q[..k + 1] == q[..k] + [q[k]] && q == q[..k + 1] + q[k + 1..];
    BytesConcat(mem, q[..k], [q[k]]);
    BytesOne(mem, q[k]);
    BytesConcat(mem, q[..k + 1], q[k + 1..]);
  }

  // ---- m_copydata ----

  lemma {:induction false} Here(mem: Mem, q: seq<Id>, k: nat)
    requires Ok(mem) && LinkedTo(mem.mbufs, q, None) && k < |q|
    ensures q[k] in mem.mbufs && mem.mbufs[q[k]].next == Head(q[k + 1..], None) && |Bytes(mem, q[k])| == Len(mem, q[k])
    ensures |ChainBytes(mem, q[..k + 1])| == |ChainBytes(mem, q[..k])| + Len(mem, q[k]) <= |ChainBytes(mem, q)|
    ensures var p := |ChainBytes(mem, q[..k])|; ChainBytes(mem, q)[p..p + Len(mem, q[k])] == Bytes(mem, q[k])
  {
    CopyStep(mem, q, k);
    hide Ok, LinkedTo, ChainBytes, Bytes;
    var a, b := ChainBytes(mem, q[..k]), Bytes(mem, q[k]);
    assert ChainBytes(mem, q)[|a|..|a| + |b|] == (a + b)[|a|..];
  }

  lemma {:induction false} AllOf(mem: Mem, q: seq<Id>, k: nat)
    requires k <= |q| && |ChainBytes(mem, q[..k])| < |ChainBytes(mem, q)|
    ensures k < |q|
  {
    hide ChainBytes;
    assert q[..|q|] == q;
  }

  /** At byte off of mbuf k is byte pos of the chain. */
  ghost predicate Stands(mem: Mem, q: seq<Id>, k: nat, off: nat, pos: nat) {
    k <= |q| && |ChainBytes(mem, q[..k])| + off == pos
  }

  /** m_copydata. */
  method CopyData(pool: Pool, m0: Option<Id>, off0: nat, len: nat, ghost q: seq<Id>) returns (d: seq<byte>)
    requires Ok(pool.mem) && m0 == Head(q, None) && LinkedTo(pool.mem.mbufs, q, None)
    requires off0 + len <= |ChainBytes(pool.mem, q)|
    ensures d == ChainBytes(pool.mem, q)[off0..off0 + len]
  {
    hide Ok, LinkedTo, ChainBytes, Bytes;
    var m, off: nat, left: nat := m0, off0, len;
    ghost var k: nat := 0;
    NoBytes(pool.mem);
    assert q[..0] == [] && q[0..] == q;
    while off > 0
      invariant Stands(pool.mem, q, k, off, off0) && m == Head(q[k..], None)
      invariant off == 0 || k < |q|
      decreases |q| - k
    {
      Here(pool.mem, q, k);
      if off < Len(pool.mem, m.value) { break; }
      off := off - Len(pool.mem, m.value);
      m := pool.mem.mbufs[m.value].next;
      k := k + 1;
      if off > 0 { AllOf(pool.mem, q, k); }
    }
    d := [];
    while left > 0
      invariant left + |d| == len && d == ChainBytes(pool.mem, q)[off0..off0 + |d|]
      invariant left > 0 ==>
                  && Stands(pool.mem, q, k, off, off0 + |d|) && m == Head(q[k..], None)
                  && (off > 0 ==> k < |q| && off < Len(pool.mem, q[k]))
      decreases |q| - k
    {
      AllOf(pool.mem, q, k);
      d, left := CopyPart(pool, m.value, off, left, d, q, k, off0);
      m, off, k := pool.mem.mbufs[m.value].next, 0, k + 1;
    }
  }

  /** What one mbuf gives. */
  method CopyPart(pool: Pool, m: Id, off: nat, left0: nat, d0: seq<byte>, ghost q: seq<Id>, ghost k: nat,
                  ghost off0: nat)
    returns (d: seq<byte>, left: nat)
    requires Ok(pool.mem) && LinkedTo(pool.mem.mbufs, q, None) && k < |q| && q[k] == m && off <= Len(pool.mem, m)
    requires 0 < left0 && off0 + |d0| + left0 <= |ChainBytes(pool.mem, q)| && Stands(pool.mem, q, k, off, off0 + |d0|)
    requires d0 == ChainBytes(pool.mem, q)[off0..off0 + |d0|]
    ensures left + |d| == left0 + |d0| && |d0| <= |d| && d == ChainBytes(pool.mem, q)[off0..off0 + |d|]
    ensures left > 0 ==> Stands(pool.mem, q, k + 1, 0, off0 + |d|)
    ensures m in pool.mem.mbufs && pool.mem.mbufs[m].next == Head(q[k + 1..], None)
  {
    hide Ok, LinkedTo, ChainBytes, Bytes, Len;
    Here(pool.mem, q, k);
    var count := Min(Len(pool.mem, m) - off, left0);
    var part := Bytes(pool.mem, m)[off..off + count];
    Sliced(ChainBytes(pool.mem, q), |ChainBytes(pool.mem, q[..k])|, Bytes(pool.mem, m), off, count, off0);
    d, left := d0 + part, left0 - count;
  }

  lemma {:induction false} Sliced(s: seq<byte>, p: nat, b: seq<byte>, off: nat, count: nat, from: nat)
    requires p + |b| <= |s| && s[p..p + |b|] == b && off + count <= |b| && from <= p + off
    ensures s[from..p + off] + b[off..off + count] == s[from..p + off + count]
  {
    var t := s[p + off..p + off + count];
    forall i | 0 <= i < count ensures b[off..off + count][i] == t[i] { assert b[off + i] == s[p..p + |b|][off + i]; }
    assert b[off..off + count] == t;
  }
}

/** m_pulldown: a byte range of a chain made contiguous, wherever it lies. */
module MbufPulldown {
  import opened Basics
  import opened MbufMem
  import opened MbufChains
  import opened MbufEdits
  import opened MbufPool
  import opened MbufUnshare
  import opened MbufPull
  import opened MbufRead

  // ---- m_adj, from the front ----

  /** The chain q lost its first t bytes, and nothing else happened. */
  ghost predicate Adjusted(mem0: Mem, mem: Mem, q: seq<Id>, t: nat) {
    && Ok(mem) && LinkedTo(mem.mbufs, q, None) && Untouched(mem0, mem, Members(q)) && Live(mem) == Live(mem0)
    && t <= |ChainBytes(mem0, q)| && ChainBytes(mem, q) == ChainBytes(mem0, q)[t..]
  }

  /** The chain q lost its first t bytes, or all it had. */
  ghost predicate Shortened(mem0: Mem, mem: Mem, q: seq<Id>, t: nat) {
    Adjusted(mem0, mem, q, Min(t, |ChainBytes(mem0, q)|))
  }

  lemma {:induction false} ShortenedBy(mem0: Mem, mem: Mem, q: seq<Id>, t: nat)
    requires Shortened(mem0, mem, q, t) && t <= |ChainBytes(mem0, q)|
    ensures Adjusted(mem0, mem, q, t)
  {
  }

  function Emptied(mem: Mem, n: Id): Mem
    requires n in mem.mbufs
  {
    SetMbuf(mem, n, mem.mbufs[n].(len := 0))
  }

  lemma {:induction false} EmptiedOk(mem: Mem, n: Id)
    requires Ok(mem) && n in mem.mbufs
    ensures var mem' := Emptied(mem, n);
            && Ok(mem') && Untouched(mem, mem', {n}) && n in mem'.mbufs && Bytes(mem', n) == []
            && mem'.mbufs[n].next == mem.mbufs[n].next && Live(mem') == Live(mem)
  {
    hide Ok, Untouched;
    FitsOf(mem, n);
    SetMbufOk(mem, n, mem.mbufs[n].(len := 0));
    EmptiedLive(mem, n);
  }

  lemma {:induction false} EmptiedLive(mem: Mem, n: Id)
    requires n in mem.mbufs
    ensures Live(Emptied(mem, n)) == Live(mem)
  {
  }

  /** Mid-way: z is empty by now, left bytes are still to go from the chain z + r. */
  ghost predicate Adjusting(mem0: Mem, mem: Mem, z: seq<Id>, r: seq<Id>, t: nat, left: nat) {
    left <= t && Adjusted(mem0, mem, z + r, t - left) && ChainBytes(mem, z) == []
  }

  lemma {:induction false} AdjustWhole(mem0: Mem, mem: Mem, z: seq<Id>, n: Id, r: seq<Id>, t: nat, left: nat)
    requires Adjusting(mem0, mem, z, [n] + r, t, left) && Len(mem, n) <= left
    ensures n in mem.mbufs && mem.mbufs[n].next == Head(r, None)
    ensures Adjusting(mem0, Emptied(mem, n), z + [n], r, t, left - Len(mem, n))
  {
    hide Ok, Untouched, Bytes, ChainBytes, LinkedTo, Emptied;
    var c := z + ([n] + r);
    InChain(mem.mbufs, z, n, r);
    ChainLength(mem, [], n);
    NextIs(mem.mbufs, z, n, r);
    EmptiedOk(mem, n);
    var mem' := Emptied(mem, n);
    InnerChange(mem, mem', z, n, r);
    assert z + ([n] + r) == z + [n] + r;
    assert n in c;
    UntouchedTrans(mem0, mem, mem', Members(c), {n});
    BytesConcat(mem', z, [n]);
    BytesOne(mem', n);
    BytesConcat(mem, [n], r);
    BytesOne(mem, n);
  }

  lemma {:induction false} AdjustPart(mem0: Mem, mem: Mem, z: seq<Id>, n: Id, r: seq<Id>, t: nat, left: nat)
    requires Adjusting(mem0, mem, z, [n] + r, t, left) && left <= Len(mem, n)
    ensures n in mem.mbufs && left <= mem.mbufs[n].len
    ensures Adjusted(mem0, TrimFront(mem, n, left), z + ([n] + r), t) && t <= |ChainBytes(mem0, z + ([n] + r))|
  {
    hide Ok, Untouched, Bytes, ChainBytes, LinkedTo, TrimFront;
    var c := z + ([n] + r);
    InChain(mem.mbufs, z, n, r);
    ChainLength(mem, [], n);
    TrimFrontOk(mem, n, left);
    var mem' := TrimFront(mem, n, left);
    InnerChange(mem, mem', z, n, r);
    assert n in c;
    UntouchedTrans(mem0, mem, mem', Members(c), {n});
    assert [] + Bytes(mem, n) + ChainBytes(mem, r) == Bytes(mem, n) + ChainBytes(mem, r);
  }

  ghost predicate AdjustedTo(mem0: Mem, mem: Mem, q: seq<Id>, k: nat, t: nat, left: nat) {
    k <= |q| && Adjusting(mem0, mem, q[..k], q[k..], t, left)
  }

  lemma {:induction false} AdjustAt(mem0: Mem, mem: Mem, q: seq<Id>, k: nat, t: nat, left: nat)
    requires AdjustedTo(mem0, mem, q, k, t, left) && k < |q|
    ensures q[k] in mem.mbufs && mem.mbufs[q[k]].next == Head(q[k + 1..], None)
    ensures Len(mem, q[k]) <= left ==> AdjustedTo(mem0, Emptied(mem, q[k]), q, k + 1, t, left - Len(mem, q[k]))
    ensures left <= Len(mem, q[k]) ==>
              && left <= mem.mbufs[q[k]].len && Adjusted(mem0, TrimFront(mem, q[k], left), q, t)
              && t <= |ChainBytes(mem0, q)|
  {
    hide Adjusted, Adjusting, Emptied, TrimFront;
    var z, n, r := q[..k], q[k], q[k + 1..];
    assert q[k..] == [n] + r && q[..k + 1] == z + [n] && z + ([n] + r) == q;
    AdjustLive(mem0, mem, z, n, r, t, left);
    if Len(mem, n) <= left { AdjustWhole(mem0, mem, z, n, r, t, left); }
    if left <= Len(mem, n) { AdjustPart(mem0, mem, z, n, r, t, left); }
  }

  lemma {:induction false} AdjustDone(mem0: Mem, mem: Mem, q: seq<Id>, k: nat, t: nat, left: nat)
    requires AdjustedTo(mem0, mem, q, k, t, left) && (left == 0 || k == |q|)
    ensures Shortened(mem0, mem, q, t)
  {
    hide Adjusting, Adjusted;
    assert q[..k] + q[k..] == q;
    AdjustEnd(mem0, mem, q[..k], q[k..], t, left);
  }

  /** m_adj from the front: a chain that is not that long is emptied, mbuf by mbuf. */
  method Adj(pool: Pool, m0: Option<Id>, t: nat, ghost q: seq<Id>)
    requires Ok(pool.mem) && m0 == Head(q, None) && LinkedTo(pool.mem.mbufs, q, None)
    modifies pool`mem
    ensures Shortened(old(pool.mem), pool.mem, q, t)
  {
    hide AdjustedTo, Shortened, Ok, LinkedTo, ChainBytes;
    AdjustStart(pool.mem, q, t);
    var m, len: nat, done := m0, t, false;
    ghost var mem0, k: nat := pool.mem, 0;
    while m.Some? && len > 0
      invariant k <= |q| && AdjustedTo(mem0, pool.mem, q, k, t, len) && m == Head(q[k..], None)
      decreases |q| - k
    {
      m, len, done := AdjOne(pool, m.value, len, mem0, q, k, t);
      if done { return; }
      k := k + 1;
    }
    AdjustDone(mem0, pool.mem, q, k, t, len);
  }

  /** One turn: an mbuf that goes whole is emptied, the last one only shortened. */
  method AdjOne(pool: Pool, n: Id, len: nat, ghost mem0: Mem, ghost q: seq<Id>, ghost k: nat, ghost t: nat)
    returns (m: Option<Id>, left: nat, done: bool)
    requires AdjustedTo(mem0, pool.mem, q, k, t, len) && k < |q| && q[k] == n
    modifies pool`mem
    ensures done ==> Shortened(mem0, pool.mem, q, t)
    ensures !done ==> AdjustedTo(mem0, pool.mem, q, k + 1, t, left) && m == Head(q[k + 1..], None)
  {
    hide AdjustedTo, Adjusted, Emptied, TrimFront;
    AdjustAt(mem0, pool.mem, q, k, t, len);
    if Len(pool.mem, n) <= len {
      m, left, done := pool.mem.mbufs[n].next, len - Len(pool.mem, n), false;
      pool.mem := Emptied(pool.mem, n);
    } else {
      m, left, done := None, 0, true;
      pool.mem := TrimFront(pool.mem, n, len);
    }
  }

  lemma {:induction false} AdjustStart(mem: Mem, q: seq<Id>, t: nat)
    requires Ok(mem) && LinkedTo(mem.mbufs, q, None)
    ensures AdjustedTo(mem, mem, q, 0, t, t)
  {
    assert q[..0] + q[0..] == q && q[..0] == [] && q[0..] == q;
    UntouchedSelf(mem);
    UntouchedWiden(mem, mem, {}, Members(q));
    NoBytes(mem);
  }

  lemma {:induction false} AdjustLive(mem0: Mem, mem: Mem, z: seq<Id>, n: Id, r: seq<Id>, t: nat, left: nat)
    requires Adjusting(mem0, mem, z, [n] + r, t, left)
    ensures n in mem.mbufs && mem.mbufs[n].next == Head(r, None)
  {
    NextIs(mem.mbufs, z, n, r);
  }

  lemma {:induction false} AdjustEnd(mem0: Mem, mem: Mem, z: seq<Id>, r: seq<Id>, t: nat, left: nat)
    requires Adjusting(mem0, mem, z, r, t, left) && (left == 0 || r == [])
    ensures Adjusted(mem0, mem, z + r, Min(t, |ChainBytes(mem0, z + r)|))
  {
    if r == [] {
      NoBytes(mem);
      assert z + r == z;
    }
  }

  // ---- The edits ----

  lemma {:induction false} TailChange(mem: Mem, mem': Mem, p: seq<Id>, q: seq<Id>)
    requires LinkedTo(mem.mbufs, p + q, None) && Untouched(mem, mem', Members(q)) && LinkedTo(mem'.mbufs, q, None)
    ensures LinkedTo(mem'.mbufs, p + q, None) && ChainBytes(mem', p) == ChainBytes(mem, p)
    ensures ChainBytes(mem', p + q) == ChainBytes(mem, p) + ChainBytes(mem', q)
    ensures ChainBytes(mem, p + q) == ChainBytes(mem, p) + ChainBytes(mem, q)
  {
    hide Untouched, ChainBytes, Distinct;
    SegSplit(mem.mbufs, p, q, None);
    SegFrame(mem, mem', p, Head(q, None), Members(q));
    SegJoin(mem'.mbufs, p, q, None);
    BytesConcat(mem, p, q);
    BytesConcat(mem', p, q);
  }

  lemma {:induction false} SameChain(mem0: Mem, mem: Mem, c: seq<Id>)
    requires Ok(mem) && LinkedTo(mem0.mbufs, c, None) && LinkedTo(mem.mbufs, c, None) && Live(mem) == Live(mem0)
    requires ChainBytes(mem, c) == ChainBytes(mem0, c) && Untouched(mem0, mem, Members(c))
    ensures Rearranged(mem0, mem, c, c)
  {
    hide Ok, ChainBytes, Untouched;
    NewMembers(mem0, c);
  }

  /** n keeps its first off bytes and is followed by o, which goes on where n went on. */
  function Graft(mem: Mem, n: Id, o: Id, off: nat): Mem
    requires n in mem.mbufs && o in mem.mbufs
  {
    SetMbuf(SetNext(mem, o, mem.mbufs[n].next), n, mem.mbufs[n].(len := off, next := Some(o)))
  }

  lemma {:induction false} GraftOk(mem: Mem, n: Id, o: Id, off: nat)
    requires Ok(mem) && n in mem.mbufs && o in mem.mbufs && n != o && off <= mem.mbufs[n].len
    ensures var mem' := Graft(mem, n, o, off);
            && Ok(mem') && Untouched(mem, mem', {n, o}) && Live(mem') == Live(mem) && n in mem'.mbufs && o in mem'.mbufs
            && off <= |Bytes(mem, n)| && Bytes(mem', n) == Bytes(mem, n)[..off] && Bytes(mem', o) == Bytes(mem, o)
            && mem'.mbufs[n].next == Some(o) && mem'.mbufs[o].next == mem.mbufs[n].next
  {
    hide Ok, Untouched;
    FitsOf(mem, n);
    var mem1 := SetNext(mem, o, mem.mbufs[n].next);
    SetNextOk(mem, o, mem.mbufs[n].next);
    UntouchedAt(mem, mem1, {o}, n);
    FitsOf(mem1, n);
    SetMbufOk(mem1, n, mem.mbufs[n].(len := off, next := Some(o)));
    var mem' := Graft(mem, n, o, off);
    UntouchedAt(mem1, mem', {n}, o);
    UntouchedWiden(mem, mem1, {o}, {n, o});
    UntouchedTrans(mem, mem1, mem', {n, o}, {n});
    Shorter(mem.stores[mem.mbufs[n].store].bytes, mem.mbufs[n].off, mem.mbufs[n].len, off);
    GraftLive(mem, n, o, off);
  }

  lemma {:induction false} GraftLive(mem: Mem, n: Id, o: Id, off: nat)
    requires n in mem.mbufs && o in mem.mbufs
    ensures Live(Graft(mem, n, o, off)) == Live(mem)
  {
  }

  lemma {:induction false} GraftChain(mem: Mem, p: seq<Id>, n: Id, q: seq<Id>, o: Id, off: nat)
    requires Ok(mem) && LinkedTo(mem.mbufs, p + ([n] + q), None) && o in mem.mbufs && o !in p + ([n] + q)
    requires off <= Len(mem, n)
    ensures n in mem.mbufs && n != o && off <= |Bytes(mem, n)|
    ensures var mem' := Graft(mem, n, o, off);
            && Ok(mem') && LinkedTo(mem'.mbufs, p + ([n] + ([o] + q)), None) && Live(mem') == Live(mem)
            && Untouched(mem, mem', {n, o})
            && ChainBytes(mem', p + ([n] + ([o] + q)))
               == ChainBytes(mem, p) + Bytes(mem, n)[..off] + (Bytes(mem, o) + ChainBytes(mem, q))
            && ChainBytes(mem', p + [n]) == ChainBytes(mem, p) + Bytes(mem, n)[..off]
            && Bytes(mem', o) == Bytes(mem, o)
  {
    hide Ok, Untouched, Bytes, ChainBytes, Graft, Distinct;
    NextIs(mem.mbufs, p, n, q);
    SegSplit(mem.mbufs, p, [n] + q, None);
    SegSplit(mem.mbufs, [n], q, None);
    assert n in [n] && n in [n] + q && n in p + ([n] + q);
    GraftOk(mem, n, o, off);
    var mem' := Graft(mem, n, o, off);
    assert forall x :: x in p || x in q ==> x != n && x != o;
    SegFrame(mem, mem', p, Some(n), {n, o});
    SegFrame(mem, mem', q, None, {n, o});
    Alone(mem'.mbufs, n);
    Alone(mem'.mbufs, o);
    SegJoin(mem'.mbufs, [o], q, None);
    SegJoin(mem'.mbufs, [n], [o] + q, None);
    SegJoin(mem'.mbufs, p, [n] + ([o] + q), None);
    ThreeBytes(mem', p, n, [o] + q);
    BytesConcat(mem', [o], q);
    BytesOne(mem', o);
    BytesConcat(mem', p, [n]);
    BytesOne(mem', n);
  }

  /** d goes in front of the data of n. */
  function Prepend(mem: Mem, n: Id, d: seq<byte>): Mem
    requires n in mem.mbufs && FitsIn(mem.mbufs[n], mem.stores) && |d| <= mem.mbufs[n].off
  {
    var b := mem.mbufs[n];
    SetMbuf(Poke(mem, n, b.off - |d|, d), n, b.(off := b.off - |d|, len := b.len + |d|))
  }

  lemma {:induction false} PrependOk(mem: Mem, n: Id, d: seq<byte>)
    requires Ok(mem) && n in mem.mbufs && |d| <= Leading(mem, n)
    ensures FitsIn(mem.mbufs[n], mem.stores) && |d| <= mem.mbufs[n].off
    ensures var mem' := Prepend(mem, n, d);
            && Ok(mem') && Untouched(mem, mem', {n}) && n in mem'.mbufs && Live(mem') == Live(mem)
            && Bytes(mem', n) == d + Bytes(mem, n) && mem'.mbufs[n].next == mem.mbufs[n].next
            && Len(mem', n) == |d| + Len(mem, n)
  {
    hide Ok, Untouched, Overwrite;
    FitsOf(mem, n);
    var b := mem.mbufs[n];
    var at := b.off - |d|;
    var mem1 := Poke(mem, n, at, d);
    if |d| == 0 { PokeNothing(mem, n, at); } else { PokeOk(mem, n, at, d); }
    SetMbufOk(mem1, n, b.(off := at, len := b.len + |d|));
    UntouchedTrans(mem, mem1, Prepend(mem, n, d), {n}, {n});
    WrittenBefore(mem.stores[b.store].bytes, at, d, b.len);
    PrependLive(mem, n, d);
  }

  lemma {:induction false} WrittenBefore(s: seq<byte>, at: nat, d: seq<byte>, len: nat)
    requires at + |d| + len <= |s|
    ensures Overwrite(s, at, d)[at..at + (len + |d|)] == d + s[at + |d|..at + |d| + len]
  {
  }

  lemma {:induction false} PrependLive(mem: Mem, n: Id, d: seq<byte>)
    requires n in mem.mbufs && FitsIn(mem.mbufs[n], mem.stores) && |d| <= mem.mbufs[n].off
    ensures Live(Prepend(mem, n, d)) == Live(mem)
  {
  }

  // ---- The paths ----

  /** Byte off0 of the chain, which was c0, is byte off of mbuf k of c, with len bytes there in
      one piece; the first kn mbufs have not been touched. */
  ghost predicate Placed(mem0: Mem, mem: Mem, c0: seq<Id>, c: seq<Id>, kn: nat, k: nat, off: nat, off0: nat, len: nat) {
    && Rearranged(mem0, mem, c0, c) && kn < |c0| && kn <= k < |c| && c[..kn] == c0[..kn]
    && Untouched(mem0, mem, Members(c0[kn..]))
    && |ChainBytes(mem, c[..k])| + off == off0 && off + len <= Len(mem, c[k])
  }

  /** Byte off0 of the chain c lies in mbuf k, off bytes on. */
  ghost predicate Found(mem: Mem, c: seq<Id>, k: nat, off: nat, off0: nat) {
    && Ok(mem) && LinkedTo(mem.mbufs, c, None) && k < |c| && off < Len(mem, c[k])
    && |ChainBytes(mem, c[..k])| + off == off0
  }

  /** off bytes behind the start of mbuf k is byte off0 of the chain. */
  ghost predicate Reached(mem: Mem, c: seq<Id>, k: nat, n: Option<Id>, off: nat, off0: nat) {
    && Ok(mem) && LinkedTo(mem.mbufs, c, None) && k <= |c| && n == Head(c[k..], None)
    && |ChainBytes(mem, c[..k])| + off == off0
  }

  lemma {:induction false} ReachNext(mem: Mem, c: seq<Id>, k: nat, n: Option<Id>, off: nat, off0: nat)
    requires Reached(mem, c, k, n, off, off0) && n.Some?
    ensures n.value in mem.mbufs && k < |c| && c[k] == n.value
    ensures Len(mem, n.value) <= off ==> Reached(mem, c, k + 1, mem.mbufs[n.value].next, off - Len(mem, n.value), off0)
  {
    PrefixBytes(mem, c, k);
    hide Ok, LinkedTo, ChainBytes;
  }

  lemma {:induction false} ReachEnd(mem: Mem, c: seq<Id>, k: nat, n: Option<Id>, off: nat, off0: nat)
    requires Reached(mem, c, k, n, off, off0)
    ensures n.None? ==> off0 >= |ChainBytes(mem, c)|
    ensures n.Some? && off < Len(mem, n.value) ==>
              k < |c| && Found(mem, c, k, off, off0) && c[k] == n.value && off0 < |ChainBytes(mem, c)|
  {
    if n.None? { assert c[..k] == c; }
    if n.Some? && off < Len(mem, n.value) { FoundInside(mem, c, k, off); }
  }

  lemma {:induction false} ReachStart(mem: Mem, c: seq<Id>, off0: nat)
    requires Ok(mem) && c != [] && LinkedTo(mem.mbufs, c, None)
    ensures Reached(mem, c, 0, Some(c[0]), off0, off0)
  {
    NoBytes(mem);
    assert c[..0] == [];
  }

  /** The mbuf that byte off0 lies in, never an empty one. */
  method FindByte(pool: Pool, m0: Id, off0: nat, ghost c: seq<Id>) returns (n: Option<Id>, off: nat, ghost k: nat)
    requires Ok(pool.mem) && c != [] && c[0] == m0 && LinkedTo(pool.mem.mbufs, c, None)
    ensures n.None? ==> off0 >= |ChainBytes(pool.mem, c)|
    ensures n.Some? ==>
              k < |c| && Found(pool.mem, c, k, off, off0) && c[k] == n.value && off0 < |ChainBytes(pool.mem, c)|
  {
    hide Ok, LinkedTo, ChainBytes, Reached, Found;
    n, off, k := Some(m0), off0, 0;
    ReachStart(pool.mem, c, off0);
    while n.Some? && off > 0
      invariant Reached(pool.mem, c, k, n, off, off0) && k <= |c|
      decreases |c| - k
    {
      ReachNext(pool.mem, c, k, n, off, off0);
      if Len(pool.mem, n.value) > off { break; }
      off := off - Len(pool.mem, n.value);
      n := pool.mem.mbufs[n.value].next;
      k := k + 1;
    }
    while n.Some? && Len(pool.mem, n.value) == 0
      invariant Reached(pool.mem, c, k, n, off, off0) && k <= |c|
      invariant n.Some? && off > 0 ==> Len(pool.mem, n.value) > off
      decreases |c| - k
    {
      ReachNext(pool.mem, c, k, n, off, off0);
      n := pool.mem.mbufs[n.value].next;
      k := k + 1;
    }
    ReachEnd(pool.mem, c, k, n, off, off0);
  }

  lemma {:induction false} FoundInside(mem: Mem, c: seq<Id>, k: nat, off: nat)
    requires Ok(mem) && LinkedTo(mem.mbufs, c, None) && k < |c| && off < Len(mem, c[k])
    ensures |ChainBytes(mem, c[..k])| + off < |ChainBytes(mem, c)|
  {
    CopyStep(mem, c, k);
  }

  /** The pieces of a chain around mbuf k. */
  lemma {:induction false} Around(mem: Mem, c: seq<Id>, k: nat, off: nat, off0: nat)
    requires Found(mem, c, k, off, off0)
    ensures c == c[..k] + ([c[k]] + c[k + 1..]) && c[k..] == [c[k]] + c[k + 1..]
    ensures c[k] in mem.mbufs && mem.mbufs[c[k]].next == Head(c[k + 1..], None) && |Bytes(mem, c[k])| == Len(mem, c[k])
    ensures LinkedTo(mem.mbufs, c[k + 1..], None) && Ok(mem)
    ensures ChainBytes(mem, c) == ChainBytes(mem, c[..k]) + Bytes(mem, c[k]) + ChainBytes(mem, c[k + 1..])
  {
    hide ChainBytes, Bytes, LinkedTo, Ok;
    var p, n, q := c[..k], c[k], c[k + 1..];
    assert c == p + ([n] + q);
    NextIs(mem.mbufs, p, n, q);
    SegSplit(mem.mbufs, p, [n] + q, None);
    SegSplit(mem.mbufs, [n], q, None);
    ChainLength(mem, [], n);
    ThreeBytes(mem, p, n, q);
  }

  /** Path one: the bytes are where they are wanted already. */
  lemma {:induction false} InPlace(mem: Mem, c: seq<Id>, k: nat, off: nat, off0: nat, len: nat)
    requires Found(mem, c, k, off, off0) && off + len <= Len(mem, c[k])
    ensures Placed(mem, mem, c, c, k, k, off, off0, len)
  {
    RearrangedSelf(mem, c);
    UntouchedSelf(mem);
    UntouchedWiden(mem, mem, {}, Members(c[k..]));
  }

  /** Path two: what follows is copied behind n. */
  method CopyBehind(pool: Pool, n: Id, tlen: nat, ghost c: seq<Id>, ghost k: nat, ghost off: nat, ghost off0: nat,
                    ghost len: nat)
    requires Found(pool.mem, c, k, off, off0) && c[k] == n && off + len == Len(pool.mem, n) + tlen
    requires tlen <= Trailing(pool.mem, n) && tlen <= |ChainBytes(pool.mem, c[k + 1..])|
    modifies pool`mem
    ensures Placed(old(pool.mem), pool.mem, c, c, k, k, off, off0, len)
  {
    ghost var mem0, q := pool.mem, c[k + 1..];
    hide Found, Ok, LinkedTo, ChainBytes, Extend, Untouched, Placed, Trailing, Adjusted, Shortened;
    Around(mem0, c, k, off, off0);
    var next := pool.mem.mbufs[n].next;
    var d := CopyData(pool, next, 0, tlen, q);
    Behind(mem0, c, k, off, off0, d);
    pool.mem := Extend(pool.mem, n, d);
    ghost var mem1 := pool.mem;
    Adj(pool, next, tlen, q);
    ShortenedBy(mem1, pool.mem, q, tlen);
    BehindDone(mem0, mem1, pool.mem, c, k, off, off0, len, tlen);
  }

  lemma {:induction false} Behind(mem: Mem, c: seq<Id>, k: nat, off: nat, off0: nat, d: seq<byte>)
    requires Found(mem, c, k, off, off0) && |d| <= Trailing(mem, c[k])
    ensures c[k] in mem.mbufs && FitsIn(mem.mbufs[c[k]], mem.stores)
    ensures mem.mbufs[c[k]].off + mem.mbufs[c[k]].len + |d| <= |mem.stores[mem.mbufs[c[k]].store].bytes|
    ensures var mem' := Extend(mem, c[k], d); var q := c[k + 1..];
            && Ok(mem') && Untouched(mem, mem', {c[k]}) && Live(mem') == Live(mem)
            && LinkedTo(mem'.mbufs, c, None) && LinkedTo(mem'.mbufs, q, None)
            && ChainBytes(mem', q) == ChainBytes(mem, q)
            && ChainBytes(mem', c[..k]) == ChainBytes(mem, c[..k])
            && Bytes(mem', c[k]) == Bytes(mem, c[k]) + d && Len(mem', c[k]) == Len(mem, c[k]) + |d|
  {
    hide Ok, LinkedTo, ChainBytes, Untouched, Extend;
    var p, n, q := c[..k], c[k], c[k + 1..];
    Around(mem, c, k, off, off0);
    FitsOf(mem, n);
    ExtendOk(mem, n, d);
    ExtendMbufs(mem, n, d);
    var mem' := Extend(mem, n, d);
    InnerChange(mem, mem', p, n, q);
    SegSplit(mem'.mbufs, p, [n] + q, None);
    SegSplit(mem'.mbufs, [n], q, None);
    assert Live(mem') == Live(mem) + {n};
  }

  lemma {:induction false} BehindDone(mem0: Mem, mem1: Mem, mem: Mem, c: seq<Id>, k: nat, off: nat, off0: nat, len: nat,
                                      tlen: nat)
    requires Found(mem0, c, k, off, off0) && off + len == Len(mem0, c[k]) + tlen
    requires tlen <= |ChainBytes(mem0, c[k + 1..])|
    requires Ok(mem1) && Untouched(mem0, mem1, {c[k]}) && Live(mem1) == Live(mem0) && LinkedTo(mem1.mbufs, c, None)
    requires ChainBytes(mem1, c[k + 1..]) == ChainBytes(mem0, c[k + 1..])
    requires ChainBytes(mem1, c[..k]) == ChainBytes(mem0, c[..k])
    requires Bytes(mem1, c[k]) == Bytes(mem0, c[k]) + ChainBytes(mem0, c[k + 1..])[..tlen]
    requires Len(mem1, c[k]) == Len(mem0, c[k]) + tlen && Adjusted(mem1, mem, c[k + 1..], tlen)
    ensures Placed(mem0, mem, c, c, k, k, off, off0, len)
  {
    hide Ok, LinkedTo, ChainBytes, Untouched, Bytes;
    var p, n, q := c[..k], c[k], c[k + 1..];
    Around(mem0, c, k, off, off0);
    assert c == (p + [n]) + q;
    TailChange(mem1, mem, p + [n], q);
    NotAmong(mem1.mbufs, p, n, q);
    UntouchedAt(mem1, mem, Members(q), n);
    BytesConcat(mem1, p, [n]);
    BytesOne(mem1, n);
    BehindUntouched(mem0, mem1, mem, c, k);
    assert ChainBytes(mem0, q)[..tlen] + ChainBytes(mem0, q)[tlen..] == ChainBytes(mem0, q);
    SameChain(mem0, mem, c);
    PrefixKept(mem1, mem, p, n, q);
  }

  lemma {:induction false} NotAmong(mbufs: map<Id, Mbuf>, p: seq<Id>, n: Id, q: seq<Id>)
    requires LinkedTo(mbufs, p + ([n] + q), None) || LinkedTo(mbufs, p + [n] + q, None)
    ensures n in mbufs && n !in Members(q) && n !in Members(p)
  {
    assert p + ([n] + q) == p + [n] + q;
    SegSplit(mbufs, p, [n] + q, None);
    SegSplit(mbufs, [n], q, None);
    assert n in [n] && n in [n] + q;
  }

  lemma {:induction false} PrefixKept(mem1: Mem, mem: Mem, p: seq<Id>, n: Id, q: seq<Id>)
    requires LinkedTo(mem1.mbufs, p + ([n] + q), None) && Untouched(mem1, mem, Members(q))
    ensures ChainBytes(mem, p) == ChainBytes(mem1, p)
  {
    SegSplit(mem1.mbufs, p, [n] + q, None);
    hide Untouched, ChainBytes;
    SegFrame(mem1, mem, p, Some(n), Members(q));
  }

  lemma {:induction false} BehindUntouched(mem0: Mem, mem1: Mem, mem: Mem, c: seq<Id>, k: nat)
    requires k < |c| && Untouched(mem0, mem1, {c[k]}) && Untouched(mem1, mem, Members(c[k + 1..]))
    ensures Untouched(mem0, mem, Members(c[k..])) && Untouched(mem0, mem, Members(c))
  {
    hide Untouched;
    var t := c[k..];
    assert t[0] == c[k] && t[1..] == c[k + 1..];
    assert Members(t) == {c[k]} + Members(c[k + 1..]);
    UntouchedWiden(mem0, mem1, {c[k]}, Members(t));
    UntouchedTrans(mem0, mem1, mem, Members(t), Members(c[k + 1..]));
    assert Members(t) <= Members(c);
    UntouchedWiden(mem0, mem, Members(t), Members(c));
  }

  function CutTo(mem: Mem, n: Id, off: nat): Mem
    requires n in mem.mbufs
  {
    SetMbuf(mem, n, mem.mbufs[n].(len := off))
  }

  lemma {:induction false} CutToOk(mem: Mem, n: Id, off: nat)
    requires Ok(mem) && n in mem.mbufs && off <= mem.mbufs[n].len
    ensures var mem' := CutTo(mem, n, off);
            && Ok(mem') && Untouched(mem, mem', {n}) && n in mem'.mbufs && Live(mem') == Live(mem)
            && off <= |Bytes(mem, n)| && Bytes(mem', n) == Bytes(mem, n)[..off]
            && mem'.mbufs[n].next == mem.mbufs[n].next
  {
    hide Ok, Untouched;
    FitsOf(mem, n);
    var b := mem.mbufs[n];
    SetMbufOk(mem, n, b.(len := off));
    Shorter(mem.stores[b.store].bytes, b.off, b.len, off);
    CutToLive(mem, n, off);
  }

  lemma {:induction false} CutToLive(mem: Mem, n: Id, off: nat)
    requires n in mem.mbufs
    ensures Live(CutTo(mem, n, off)) == Live(mem)
  {
  }

  /** Path three: the bytes of n from off on go in front of those of its neighbour. */
  method CopyInFront(pool: Pool, n: Id, n2: Id, off: nat, ghost c: seq<Id>, ghost k: nat, ghost off0: nat,
                     ghost len: nat)
    requires Found(pool.mem, c, k, off, off0) && c[k] == n && k + 1 < |c| && c[k + 1] == n2
    requires Len(pool.mem, n) - off <= Leading(pool.mem, n2) && len <= Len(pool.mem, n) - off + Len(pool.mem, n2)
    modifies pool`mem
    ensures Placed(old(pool.mem), pool.mem, c, c, k, k + 1, 0, off0, len)
  {
    ghost var mem0 := pool.mem;
    hide Found, Ok, LinkedTo, ChainBytes, Prepend, CutTo, Untouched, Placed, Leading, Bytes;
    Around(mem0, c, k, off, off0);
    InFront(mem0, c, k, off, off0);
    var d := Bytes(pool.mem, n)[off..];
    pool.mem := Prepend(pool.mem, n2, d);
    ghost var mem1 := pool.mem;
    InFrontDone(mem0, mem1, c, k, off, off0, len);
    pool.mem := CutTo(pool.mem, n, off);
  }

  lemma {:induction false} InFront(mem: Mem, c: seq<Id>, k: nat, off: nat, off0: nat)
    requires Found(mem, c, k, off, off0) && k + 1 < |c| && Len(mem, c[k]) - off <= Leading(mem, c[k + 1])
    ensures |Bytes(mem, c[k])| == Len(mem, c[k])
    ensures c[k + 1] in mem.mbufs && FitsIn(mem.mbufs[c[k + 1]], mem.stores)
    ensures |Bytes(mem, c[k])| - off <= mem.mbufs[c[k + 1]].off
    ensures var mem' := Prepend(mem, c[k + 1], Bytes(mem, c[k])[off..]); var n, n2, r := c[k], c[k + 1], c[k + 2..];
            && Ok(mem') && Untouched(mem, mem', {n2}) && Live(mem') == Live(mem) && LinkedTo(mem'.mbufs, c, None)
            && ChainBytes(mem', c[..k]) == ChainBytes(mem, c[..k]) && n in mem'.mbufs && mem'.mbufs[n] == mem.mbufs[n]
            && Bytes(mem', n) == Bytes(mem, n) && ChainBytes(mem', r) == ChainBytes(mem, r)
            && Bytes(mem', n2) == Bytes(mem, n)[off..] + Bytes(mem, n2) && n2 in mem'.mbufs
            && Len(mem', n2) == |Bytes(mem, n)| - off + Len(mem, n2)
  {
    hide Ok, LinkedTo, ChainBytes, Untouched, Prepend, Leading, Bytes;
    Around(mem, c, k, off, off0);
    var p, n, n2, r := c[..k], c[k], c[k + 1], c[k + 2..];
    assert c == (p + [n]) + ([n2] + r);
    InChain(mem.mbufs, p + [n], n2, r);
    PrependOk(mem, n2, Bytes(mem, n)[off..]);
    var mem' := Prepend(mem, n2, Bytes(mem, n)[off..]);
    InnerChange(mem, mem', p + [n], n2, r);
    FrontKept(mem, mem', p, n, n2, r);
  }

  lemma {:induction false} FrontKept(mem: Mem, mem': Mem, p: seq<Id>, n: Id, n2: Id, r: seq<Id>)
    requires LinkedTo(mem.mbufs, (p + [n]) + ([n2] + r), None) && Untouched(mem, mem', {n2})
    ensures ChainBytes(mem', p) == ChainBytes(mem, p)
    ensures n in mem.mbufs && n in mem'.mbufs && mem'.mbufs[n] == mem.mbufs[n] && Bytes(mem', n) == Bytes(mem, n)
  {
    assert (p + [n]) + ([n2] + r) == p + ([n] + ([n2] + r));
    SegSplit(mem.mbufs, p, [n] + ([n2] + r), None);
    SegSplit(mem.mbufs, [n], [n2] + r, None);
    assert n in [n] && n2 in [n2] + r && n2 in [n] + ([n2] + r);
    InChain(mem.mbufs, p, n, [n2] + r);
    hide LinkedTo, ChainBytes, Bytes;
    UntouchedAt(mem, mem', {n2}, n);
    hide Untouched;
    SegFrame(mem, mem', p, Some(n), {n2});
  }

  lemma {:induction false} InFrontDone(mem0: Mem, mem1: Mem, c: seq<Id>, k: nat, off: nat, off0: nat, len: nat)
    requires Found(mem0, c, k, off, off0) && k + 1 < |c| && |Bytes(mem0, c[k])| == Len(mem0, c[k])
    requires len <= Len(mem0, c[k]) - off + Len(mem0, c[k + 1])
    requires Ok(mem1) && Untouched(mem0, mem1, {c[k + 1]}) && Live(mem1) == Live(mem0) && LinkedTo(mem1.mbufs, c, None)
    requires ChainBytes(mem1, c[..k]) == ChainBytes(mem0, c[..k])
    requires ChainBytes(mem1, c[k + 2..]) == ChainBytes(mem0, c[k + 2..])
    requires c[k] in mem0.mbufs && c[k] in mem1.mbufs && mem1.mbufs[c[k]] == mem0.mbufs[c[k]]
    requires Bytes(mem1, c[k]) == Bytes(mem0, c[k])
    requires Bytes(mem1, c[k + 1]) == Bytes(mem0, c[k])[off..] + Bytes(mem0, c[k + 1])
    requires c[k + 1] in mem1.mbufs && Len(mem1, c[k + 1]) == |Bytes(mem0, c[k])| - off + Len(mem0, c[k + 1])
    ensures Placed(mem0, CutTo(mem1, c[k], off), c, c, k, k + 1, 0, off0, len)
  {
    hide Ok, LinkedTo, ChainBytes, Untouched, CutTo, Bytes;
    var p, n, n2, r := c[..k], c[k], c[k + 1], c[k + 2..];
    assert c == p + ([n] + ([n2] + r));
    CutToOk(mem1, n, off);
    var mem := CutTo(mem1, n, off);
    InnerChange(mem1, mem, p, n, [n2] + r);
    ThreeBytes(mem0, p, n, [n2] + r);
    PairBytes(mem0, n2, r);
    PairBytes(mem1, n2, r);
    NeighbourKept(mem1, mem, p, n, n2, r);
    assert c[..k + 1] == p + [n];
    BytesConcat(mem, p, [n]);
    BytesOne(mem, n);
    FrontUntouched(mem0, mem1, mem, c, k);
    FrontSum(ChainBytes(mem0, p), Bytes(mem0, n), off, Bytes(mem0, n2), ChainBytes(mem0, r));
    SameChain(mem0, mem, c);
  }

  lemma {:induction false} FrontSum(p: seq<byte>, n: seq<byte>, off: nat, n2: seq<byte>, r: seq<byte>)
    requires off <= |n|
    ensures p + n[..off] + (n[off..] + n2 + r) == p + n + (n2 + r)
  {
  }

  lemma {:induction false} PairBytes(mem: Mem, n: Id, r: seq<Id>)
    ensures ChainBytes(mem, [n] + r) == Bytes(mem, n) + ChainBytes(mem, r)
  {
    hide Bytes, ChainBytes;
    BytesConcat(mem, [n], r);
    BytesOne(mem, n);
  }

  lemma {:induction false} NeighbourKept(mem1: Mem, mem: Mem, p: seq<Id>, n: Id, n2: Id, r: seq<Id>)
    requires LinkedTo(mem1.mbufs, p + ([n] + ([n2] + r)), None) && Untouched(mem1, mem, {n}) && n2 in mem1.mbufs
    ensures Len(mem, n2) == Len(mem1, n2)
  {
    SegSplit(mem1.mbufs, p, [n] + ([n2] + r), None);
    SegSplit(mem1.mbufs, [n], [n2] + r, None);
    assert n in [n] && n2 in [n2] + r;
    UntouchedAt(mem1, mem, {n}, n2);
  }

  lemma {:induction false} FrontUntouched(mem0: Mem, mem1: Mem, mem: Mem, c: seq<Id>, k: nat)
    requires k + 1 < |c| && Untouched(mem0, mem1, {c[k + 1]}) && Untouched(mem1, mem, {c[k]})
    ensures Untouched(mem0, mem, Members(c[k..])) && Untouched(mem0, mem, Members(c))
  {
    hide Untouched;
    var t := c[k..];
    assert c[k] == t[0] && c[k + 1] == t[1];
    UntouchedWiden(mem0, mem1, {c[k + 1]}, Members(t));
    UntouchedTrans(mem0, mem1, mem, Members(t), {c[k]});
    assert Members(t) <= Members(c);
    UntouchedWiden(mem0, mem, Members(t), Members(c));
  }

  /** A new mbuf, with a cluster or without, holding d. */
  method NewHolding(pool: Pool, d: seq<byte>, cluster: bool) returns (o: Option<Id>)
    requires Ok(pool.mem) && |d| <= if cluster then MCLBYTES else pool.mlen
    modifies pool`mem, pool`budget
    ensures o.None? ==> pool.mem == old(pool.mem)
    ensures o.Some? <==> old(pool.budget) > 0
    ensures o.Some? ==> NewWith(old(pool.mem), pool.mem, o.value, d)
  {
    hide Ok, NewWith, NewOne;
    ghost var mem0 := pool.mem;
    var cap := if cluster then MCLBYTES else pool.mlen;
    o := pool.Get(cap, cluster, 0, false);
    if o.Some? {
      FillNew(mem0, pool.mem, o.value, cap, d);
      pool.mem := Extend(pool.mem, o.value, d);
    }
  }

  /** The chain c with o behind mbuf k. */
  ghost function WithBehind(c: seq<Id>, k: nat, o: Id): (c': seq<Id>)
    requires k < |c|
    ensures |c'| == |c| + 1 && c'[k + 1] == o && c'[..k + 1] == c[..k + 1] && c'[..k] == c[..k] && c'[0] == c[0]
  {
    c[..k] + ([c[k]] + ([o] + c[k + 1..]))
  }

  /** Between n, cut back to off bytes, and q, which gave up t bytes, comes a new mbuf o with
      what they lost. */
  lemma {:induction false} Grafted(mem0: Mem, mem1: Mem, mem2: Mem, c: seq<Id>, k: nat, off: nat, off0: nat, len: nat,
                                   o: Id, t: nat)
    requires Found(mem0, c, k, off, off0) && t <= |ChainBytes(mem0, c[k + 1..])|
    requires |Bytes(mem0, c[k])| == Len(mem0, c[k])
    requires NewWith(mem0, mem1, o, Bytes(mem0, c[k])[off..] + ChainBytes(mem0, c[k + 1..])[..t])
    requires Adjusted(mem1, mem2, c[k + 1..], t) && len <= Len(mem0, c[k]) - off + t
    ensures c[k] in mem2.mbufs && o in mem2.mbufs
    ensures Placed(mem0, Graft(mem2, c[k], o, off), c, WithBehind(c, k, o), k, k + 1, 0, off0, len)
  {
    hide Ok, LinkedTo, ChainBytes, Untouched, Bytes, Graft, NewWith;
    var p, n, q := c[..k], c[k], c[k + 1..];
    Around(mem0, c, k, off, off0);
    NewFactsWith(mem0, mem1, o, Bytes(mem0, n)[off..] + ChainBytes(mem0, q)[..t]);
    SegFrame(mem0, mem1, c, None, {});
    NotInChain(mem0.mbufs, c, o);
    assert c == (p + [n]) + q;
    TailChange(mem1, mem2, p + [n], q);
    GraftedKept(mem0, mem1, mem2, p, n, q, o);
    GraftChain(mem2, p, n, q, o, off);
    var mem := Graft(mem2, n, o, off);
    var c' := p + ([n] + ([o] + q));
    ChainLength(mem, [], o);
    GraftSum(ChainBytes(mem0, p), Bytes(mem0, n), off, ChainBytes(mem0, q), t);
    assert c'[..k + 1] == p + [n] && c'[..k] == p && c'[k + 1] == o;
    GraftRearranged(mem0, mem1, mem2, mem, c, k, o);
  }

  lemma {:induction false} GraftSum(p: seq<byte>, n: seq<byte>, off: nat, q: seq<byte>, t: nat)
    requires off <= |n| && t <= |q|
    ensures p + n[..off] + (n[off..] + q[..t] + q[t..]) == p + n + q
  {
  }

  /** Adjusting q left p, n and the new mbuf as they were. */
  lemma {:induction false} GraftedKept(mem0: Mem, mem1: Mem, mem2: Mem, p: seq<Id>, n: Id, q: seq<Id>, o: Id)
    requires LinkedTo(mem0.mbufs, p + ([n] + q), None) && Untouched(mem0, mem1, {}) && Untouched(mem1, mem2, Members(q))
    requires o !in p + ([n] + q) && o in mem1.mbufs
    ensures n in mem0.mbufs && n in mem2.mbufs && o in mem2.mbufs && Bytes(mem2, o) == Bytes(mem1, o)
    ensures Bytes(mem2, n) == Bytes(mem0, n) && Len(mem2, n) == Len(mem0, n)
    ensures ChainBytes(mem2, p) == ChainBytes(mem0, p) && ChainBytes(mem1, q) == ChainBytes(mem0, q)
  {
    hide Untouched, ChainBytes, Bytes, LinkedTo;
    NotAmong(mem0.mbufs, p, n, q);
    SegSplit(mem0.mbufs, p, [n] + q, None);
    SegSplit(mem0.mbufs, [n], q, None);
    SegFrame(mem0, mem1, p, Some(n), {});
    SegFrame(mem0, mem1, q, None, {});
    SegFrame(mem1, mem2, p, Some(n), Members(q));
    UntouchedAt(mem0, mem1, {}, n);
    UntouchedAt(mem1, mem2, Members(q), n);
    UntouchedAt(mem1, mem2, Members(q), o);
  }

  lemma {:induction false} GraftRearranged(mem0: Mem, mem1: Mem, mem2: Mem, mem: Mem, c: seq<Id>, k: nat, o: Id)
    requires k < |c| && LinkedTo(mem0.mbufs, c, None) && o !in mem0.mbufs
    requires Untouched(mem0, mem1, {}) && Untouched(mem1, mem2, Members(c[k + 1..])) && Untouched(mem2, mem, {c[k], o})
    requires Live(mem1) == Live(mem0) + {o} && Live(mem2) == Live(mem1) && Live(mem) == Live(mem2)
    ensures Untouched(mem0, mem, Members(c[k..])) && Untouched(mem0, mem, Members(c))
    ensures var c' := c[..k] + ([c[k]] + ([o] + c[k + 1..]));
            Live(mem) == Live(mem0) - Members(c) + Members(c') && forall x :: x in c' ==> x in c || x !in mem0.mbufs
  {
    hide Untouched, LinkedTo, Live, Members;
    assert c == c[..k] + ([c[k]] + c[k + 1..]);
    GraftMembers(mem0, c, c[..k], c[k], c[k + 1..], o);
    GraftUntouched(mem0, mem1, mem2, mem, c, k, o);
  }

  lemma {:induction false} GraftUntouched(mem0: Mem, mem1: Mem, mem2: Mem, mem: Mem, c: seq<Id>, k: nat, o: Id)
    requires k < |c| && o !in mem0.mbufs
    requires Untouched(mem0, mem1, {}) && Untouched(mem1, mem2, Members(c[k + 1..])) && Untouched(mem2, mem, {c[k], o})
    ensures Untouched(mem0, mem, Members(c[k..])) && Untouched(mem0, mem, Members(c))
  {
    hide Untouched;
    var t := c[k..];
    assert t[0] == c[k] && t[1..] == c[k + 1..];
    assert Members(t) == {c[k]} + Members(c[k + 1..]);
    UntouchedWiden(mem0, mem1, {}, Members(t));
    UntouchedTrans(mem0, mem1, mem2, Members(t), Members(c[k + 1..]));
    UntouchedTrans(mem0, mem2, mem, Members(t), {c[k], o});
    assert Members(t) <= Members(c);
    UntouchedWiden(mem0, mem, Members(t), Members(c));
  }

  lemma {:induction false} GraftMembers(mem0: Mem, c: seq<Id>, p: seq<Id>, n: Id, q: seq<Id>, o: Id)
    requires c == p + ([n] + q) && LinkedTo(mem0.mbufs, c, None) && o !in mem0.mbufs
    ensures var c' := p + ([n] + ([o] + q));
            && Live(mem0) + {o} == Live(mem0) - Members(c) + Members(c')
            && forall x :: x in c' ==> x in c || x !in mem0.mbufs
  {
    var c' := p + ([n] + ([o] + q));
    NewMembers(mem0, c);
    hide LinkedTo;
    forall x ensures x in Members(c') <==> x in Members(c) || x == o {
    }
  }

  lemma {:induction false} NothingAdjusted(mem: Mem, q: seq<Id>)
    requires Ok(mem) && LinkedTo(mem.mbufs, q, None)
    ensures Adjusted(mem, mem, q, 0)
  {
    UntouchedSelf(mem);
    UntouchedWiden(mem, mem, {}, Members(q));
  }

  lemma {:induction false} GraftedPlain(mem0: Mem, mem: Mem, c: seq<Id>, k: nat, off: nat, off0: nat, len: nat, o: Id)
    requires Found(mem0, c, k, off, off0) && |Bytes(mem0, c[k])| == Len(mem0, c[k]) && off + len <= Len(mem0, c[k])
    requires NewWith(mem0, mem, o, Bytes(mem0, c[k])[off..])
    ensures c[k] in mem.mbufs && o in mem.mbufs
    ensures Placed(mem0, Graft(mem, c[k], o, off), c, WithBehind(c, k, o), k, k + 1, 0, off0, len)
  {
    hide Ok, LinkedTo, ChainBytes, Graft, Untouched, Placed, Adjusted, NewWith, Bytes, WithBehind;
    var q := c[k + 1..];
    Around(mem0, c, k, off, off0);
    NewFactsWith(mem0, mem, o, Bytes(mem0, c[k])[off..]);
    SegFrame(mem0, mem, q, None, {});
    NothingAdjusted(mem, q);
    assert Bytes(mem0, c[k])[off..] + ChainBytes(mem0, q)[..0] == Bytes(mem0, c[k])[off..];
    Grafted(mem0, mem, mem, c, k, off, off0, len, o, 0);
  }

  /** Path four: the range starts a new mbuf, with all that n held from there on. */
  method SplitOut(pool: Pool, n: Id, off: nat, ghost c: seq<Id>, ghost k: nat, ghost off0: nat, ghost len: nat)
    returns (o: Option<Id>, ghost c': seq<Id>)
    requires Found(pool.mem, c, k, off, off0) && k < |c| && c[k] == n && off + len <= Len(pool.mem, n) <= MCLBYTES + off
    requires pool.mhlen < pool.mlen
    modifies pool`mem, pool`budget
    ensures o.None? ==> pool.mem == old(pool.mem)
    ensures o.Some? <==> old(pool.budget) > 0
    ensures o.Some? ==>
              Placed(old(pool.mem), pool.mem, c, c', k, k + 1, 0, off0, len) && k + 1 < |c'| && c'[k + 1] == o.value
                        && c'[0] == c[0]
  {
    ghost var mem0 := pool.mem;
    FoundOff(pool.mem, c, k, off, off0);
    hide Found, Ok, LinkedTo, ChainBytes, Graft, Untouched, Placed, NewWith, Bytes, WithBehind;
    Around(mem0, c, k, off, off0);
    var d := Bytes(pool.mem, n)[off..];
    c' := c;
    o := NewHolding(pool, d, |d| >= pool.mhlen + 1);
    if o.Some? {
      GraftedPlain(mem0, pool.mem, c, k, off, off0, len, o.value);
      pool.mem := Graft(pool.mem, n, o.value, off);
      c' := WithBehind(c, k, o.value);
    }
  }

  /** Path five: a new mbuf for the range, fed from both sides. */
  method Assemble(pool: Pool, n: Id, off: nat, len: nat, ghost c: seq<Id>, ghost k: nat, ghost off0: nat)
    returns (o: Option<Id>, ghost c': seq<Id>)
    requires Found(pool.mem, c, k, off, off0) && k < |c| && c[k] == n && Len(pool.mem, n) < off + len && len <= MCLBYTES
    requires off + len - Len(pool.mem, n) <= |ChainBytes(pool.mem, c[k + 1..])|
    modifies pool`mem, pool`budget
    ensures o.None? ==> pool.mem == old(pool.mem)
    ensures o.Some? <==> old(pool.budget) > 0
    ensures o.Some? ==>
              Placed(old(pool.mem), pool.mem, c, c', k, k + 1, 0, off0, len) && k + 1 < |c'| && c'[k + 1] == o.value
                        && c'[0] == c[0]
  {
    ghost var mem0, q := pool.mem, c[k + 1..];
    FoundOff(pool.mem, c, k, off, off0);
    hide Found, Ok, LinkedTo, ChainBytes, Graft, Untouched, Placed, Adjusted, NewWith, Bytes, WithBehind, Shortened;
    Around(mem0, c, k, off, off0);
    var tlen := off + len - Len(pool.mem, n);
    var next := pool.mem.mbufs[n].next;
    var tail := CopyData(pool, next, 0, tlen, q);
    var d := Bytes(pool.mem, n)[off..] + tail;
    c' := c;
    o := NewHolding(pool, d, len > pool.mlen);
    if o.Some? {
      NewFactsWith(mem0, pool.mem, o.value, d);
      SegFrame(mem0, pool.mem, q, None, {});
      ghost var mem1 := pool.mem;
      Adj(pool, next, tlen, q);
      ShortenedBy(mem1, pool.mem, q, tlen);
      Grafted(mem0, mem1, pool.mem, c, k, off, off0, len, o.value, tlen);
      pool.mem := Graft(pool.mem, n, o.value, off);
      c' := WithBehind(c, k, o.value);
    }
  }

  lemma {:induction false} FoundOff(mem: Mem, c: seq<Id>, k: nat, off: nat, off0: nat)
    requires Found(mem, c, k, off, off0)
    ensures off < Len(mem, c[k])
  {
  }

  lemma {:induction false} FoundAt(mem: Mem, c: seq<Id>, k: nat, off: nat, off0: nat)
    requires Found(mem, c, k, off, off0)
    ensures k < |c| && |ChainBytes(mem, c[..k])| + off == off0
  {
  }

  // ---- m_pulldown ----

  /** What m_pulldown takes for writable: the room inside an mbuf, or a cluster of its own that nobody
      shares; not a cluster that came with its mbuf. */
  predicate MayMove(mem: Mem, i: Id) {
    !Ext(mem, i) || (Writable(mem, i) && !mem.stores[mem.mbufs[i].store].packet)
  }

  /** The range runs over the end of mbuf k, and goes behind its bytes or in front of its neighbour's. */
  ghost predicate RoomAround(mem: Mem, c: seq<Id>, k: nat, off: nat, len: nat) {
    && k + 1 < |c| && off < Len(mem, c[k]) < off + len && MayMove(mem, c[k])
    && (|| off + len - Len(mem, c[k]) <= Trailing(mem, c[k])
        || (Len(mem, c[k]) - off <= Leading(mem, c[k + 1]) && off + len - Len(mem, c[k]) <= Len(mem, c[k + 1])))
  }

  /** When the len bytes from byte off of mbuf k on can be made contiguous: they are so already, and
      begin where the caller can take them; or there is room around; or a new mbuf will do. */
  ghost predicate CanPull(mem: Mem, c: seq<Id>, k: nat, off: nat, len: nat, takesOff: bool, budget: nat) {
    && k < |c| && |ChainBytes(mem, c[..k])| + off + len <= |ChainBytes(mem, c)|
    && if off + len <= Len(mem, c[k])
       then off == 0 || takesOff || (budget > 0 && Len(mem, c[k]) - off <= MCLBYTES)
       else budget > 0 || ((off == 0 || takesOff) && RoomAround(mem, c, k, off, len))
  }

  /** m_pulldown: make the len bytes from off0 on contiguous. On success they are at byte off of
      the result, which is byte 0 unless the caller takes an offset, and no mbuf in front of the one
      that holds byte off0, which is mbuf kn, has changed. It fails for a range longer than a cluster,
      and exactly when the range cannot be pulled; then the chain is released. */
  method Pulldown(pool: Pool, m0: Id, off0: nat, len: nat, takesOff: bool, ghost c0: seq<Id>)
    returns (r: Option<Id>, off: nat, ghost c: seq<Id>, ghost kn: nat, ghost k: nat, ghost o: nat)
    requires Ok(pool.mem) && c0 != [] && c0[0] == m0 && LinkedTo(pool.mem.mbufs, c0, None) && pool.mhlen < pool.mlen
    modifies pool`mem, pool`budget
    ensures r.Some? ==> Placed(old(pool.mem), pool.mem, c0, c, kn, k, off, off0, len) && c[k] == r.value && c[0] == m0
                        && (takesOff || off == 0)
    ensures r.None? ==> Ok(pool.mem) && Untouched(old(pool.mem), pool.mem, Members(c0))
                        && Live(pool.mem) == Live(old(pool.mem)) - Members(c0)
    ensures r.Some? ==> len <= MCLBYTES && off0 < |old(ChainBytes(pool.mem, c0))|
    ensures len <= MCLBYTES && off0 < |old(ChainBytes(pool.mem, c0))| ==>
              && Found(old(pool.mem), c0, kn, o, off0)
              && (r.Some? <==> CanPull(old(pool.mem), c0, kn, o, len, takesOff, old(pool.budget)))
  {
    hide Ok, LinkedTo, ChainBytes, Untouched, Live, Placed, Found, CanPull;
    off, c, kn, k, r, o := 0, c0, 0, 0, None, 0;
    if len > MCLBYTES {
      FreeChain(pool, Some(m0), c0);
      return;
    }
    var at;
    at, off, kn := FindByte(pool, m0, off0, c0);
    if at.None? {
      FreeChain(pool, Some(m0), c0);
      return;
    }
    o := off;
    r, off, c, k := PullFrom(pool, at.value, off, len, takesOff, c0, kn, off0);
    if r.None? { FreeChain(pool, Some(m0), c0); }
  }

  /** The five ways, tried in turn. */
  method PullFrom(pool: Pool, n: Id, off1: nat, len: nat, takesOff: bool, ghost c0: seq<Id>, ghost kn: nat,
                  ghost off0: nat)
    returns (r: Option<Id>, off: nat, ghost c: seq<Id>, ghost k: nat)
    requires Found(pool.mem, c0, kn, off1, off0) && kn < |c0| && c0[kn] == n && len <= MCLBYTES
    requires pool.mhlen < pool.mlen
    modifies pool`mem, pool`budget
    ensures r.Some? ==> Placed(old(pool.mem), pool.mem, c0, c, kn, k, off, off0, len) && k < |c| && c[k] == r.value
                        && c[0] == c0[0] && (takesOff || off == 0)
    ensures r.None? ==> pool.mem == old(pool.mem)
    ensures r.Some? <==> CanPull(old(pool.mem), c0, kn, off1, len, takesOff, old(pool.budget))
  {
    hide Ok, LinkedTo, ChainBytes, Untouched, Live, Placed, Found, Leading, Trailing, Writable, Ext, Bytes, RoomAround,
         CanPull;
    PullCases(pool.mem, c0, kn, off1, off0, len, takesOff, pool.budget);
    off, c, k, r := off1, c0, kn, None;
    if len <= Len(pool.mem, n) - off {
      if off == 0 || takesOff {
        InPlace(pool.mem, c0, kn, off, off0, len);
        return Some(n), off, c0, kn;
      }
      if Len(pool.mem, n) - off > MCLBYTES {
        return;
      }
      r, c := SplitOut(pool, n, off, c0, kn, off0, len);
      off, k := 0, kn + 1;
      return;
    }
    var next := pool.mem.mbufs[n].next;
    var hlen := Len(pool.mem, n) - off;
    var tlen := len - hlen;
    var olen := Length(pool, next, c0[kn + 1..]);
    if hlen + olen < len { return; }
    r, off, c, k := Gather(pool, n, next, off1, len, hlen, tlen, takesOff, c0, kn, off0);
  }

  lemma {:induction false} PullCases(mem: Mem, c: seq<Id>, k: nat, off: nat, off0: nat, len: nat, takesOff: bool,
                                     budget: nat)
    requires Found(mem, c, k, off, off0)
    ensures k < |c| && off < Len(mem, c[k]) && c[k] in mem.mbufs && mem.mbufs[c[k]].next == Head(c[k + 1..], None)
    ensures Ok(mem) && LinkedTo(mem.mbufs, c[k + 1..], None)
    ensures CanPull(mem, c, k, off, len, takesOff, budget) <==>
            if off + len <= Len(mem, c[k])
            then off == 0 || takesOff || (budget > 0 && Len(mem, c[k]) - off <= MCLBYTES)
            else off + len - Len(mem, c[k]) <= |ChainBytes(mem, c[k + 1..])|
                 && (budget > 0 || ((off == 0 || takesOff) && RoomAround(mem, c, k, off, len)))
  {
    FoundAt(mem, c, k, off, off0);
    FoundOff(mem, c, k, off, off0);
    hide Ok, LinkedTo, ChainBytes, Found, RoomAround;
    Around(mem, c, k, off, off0);
    RangeIn(mem, c, k, off, off0);
  }

  lemma {:induction false} RangeIn(mem: Mem, c: seq<Id>, k: nat, off: nat, off0: nat)
    requires Found(mem, c, k, off, off0)
    ensures |ChainBytes(mem, c)| == off0 + (Len(mem, c[k]) - off) + |ChainBytes(mem, c[k + 1..])|
  {
    Around(mem, c, k, off, off0);
  }

  /** The range runs over into the next mbufs. */
  method Gather(pool: Pool, n: Id, next: Option<Id>, off1: nat, len: nat, hlen: nat, tlen: nat, takesOff: bool,
                ghost c0: seq<Id>, ghost kn: nat, ghost off0: nat)
    returns (r: Option<Id>, off: nat, ghost c: seq<Id>, ghost k: nat)
    requires Found(pool.mem, c0, kn, off1, off0) && kn < |c0| && c0[kn] == n && len <= MCLBYTES
    requires hlen == Len(pool.mem, n) - off1 && hlen + tlen == len && 0 < tlen <= |ChainBytes(pool.mem, c0[kn + 1..])|
    requires next == Head(c0[kn + 1..], None)
    modifies pool`mem, pool`budget
    ensures r.Some? ==> Placed(old(pool.mem), pool.mem, c0, c, kn, k, off, off0, len) && k < |c| && c[k] == r.value
                        && c[0] == c0[0] && (takesOff || off == 0)
    ensures r.None? ==> pool.mem == old(pool.mem)
    ensures r.Some?
            <==> old(pool.budget) > 0 || ((off1 == 0 || takesOff) && RoomAround(old(pool.mem), c0, kn, off1, len))
  {
    hide Ok, LinkedTo, ChainBytes, Untouched, Live, Placed, Found, MayMove, Leading, Trailing, Writable, Ext, Bytes;
    FoundOff(pool.mem, c0, kn, off1, off0);
    SomeFollow(pool.mem, c0, kn, tlen);
    off, c, k, r := off1, c0, kn, Some(n);
    var writable := MayMove(pool.mem, n);
    var n2 := next.value;
    if (off == 0 || takesOff) && Trailing(pool.mem, n) >= tlen && writable {
      CopyBehind(pool, n, tlen, c0, kn, off1, off0, len);
    } else if (off == 0 || takesOff) && Leading(pool.mem, n2) >= hlen && writable && Len(pool.mem, n2) >= tlen {
      CopyInFront(pool, n, n2, off1, c0, kn, off0, len);
      r, off, k := next, 0, kn + 1;
    } else {
      r, c := Assemble(pool, n, off1, len, c0, kn, off0);
      off, k := 0, kn + 1;
    }
  }

  lemma {:induction false} SomeFollow(mem: Mem, c: seq<Id>, k: nat, tlen: nat)
    requires k < |c| && 0 < tlen <= |ChainBytes(mem, c[k + 1..])|
    ensures k + 1 < |c| && Head(c[k + 1..], None) == Some(c[k + 1])
  {
    NoBytes(mem);
  }
}

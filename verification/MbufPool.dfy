/** The chain operations, as loops over the memory of mbufs. */
module MbufPool {
  import opened Basics
  import opened MbufMem
  import opened MbufChains
  import opened MbufEdits

  lemma {:induction false} FreshExists(keys: set<nat>) returns (n: nat)
    ensures forall k :: k in keys ==> k < n
    decreases |keys|
  {
    if keys == {} { n := 0; } else {
      var k :| k in keys;
      var n' := FreshExists(keys - {k});
      n := if k >= n' then k + 1 else n';
      assert forall j :: j in keys ==> j == k || j in keys - {k};
    }
  }

  method FreshId(keys: set<nat>) returns (n: nat)
    ensures n !in keys
  {
    ghost var k := FreshExists(keys);
    assert k !in keys;
    n :| n !in keys;
  }

  // ---- m_cat ----

  /** What is left of appending b to a: the chains as they stand hold the bytes q together. */
  ghost predicate Catting(mem0: Mem, mem: Mem, a: seq<Id>, rest: seq<Id>, q: seq<byte>, all: set<Id>) {
    && Ok(mem) && a != [] && LinkedTo(mem.mbufs, a, None) && LinkedTo(mem.mbufs, rest, None) && Apart(a, rest)
    && ChainBytes(mem, a) + ChainBytes(mem, rest) == q
    && Untouched(mem0, mem, all) && (forall x :: x in a || x in rest ==> x in all)
    && Live(mem) == Live(mem0) - all + Members(a) + Members(rest)
  }

  lemma {:induction false} CatAbsorb(mem0: Mem, mem: Mem, a: seq<Id>, rest: seq<Id>, q: seq<byte>, all: set<Id>)
    requires Catting(mem0, mem, a, rest, q, all) && rest != []
    requires Len(mem, rest[0]) <= Trailing(mem, a[|a| - 1])
    ensures AbsorbFits(mem, a[|a| - 1], rest[0]) && mem.mbufs[rest[0]].next == Head(rest[1..], None)
    ensures Catting(mem0, Absorb(mem, a[|a| - 1], rest[0], None), a, rest[1..], q, all)
  {
    hide Ok, Untouched, Absorb, Bytes, AbsorbFits, Trailing, ChainBytes, Distinct, Live, Members, LinkedTo;
    var k := |a| - 1;
    var p, m, n, r := a[..k], a[k], rest[0], rest[1..];
    assert a == p + [m] && rest == [n] + r;
    assert m in a && n in rest;
    SegSplit(mem.mbufs, p, [m], None);
    SegSplit(mem.mbufs, [n], r, None);
    RoomFor(mem, m, n);
    AbsorbOk(mem, m, n, None);
    var mem' := Absorb(mem, m, n, None);
    assert m in [m] && n in [n];
    SegFrame(mem, mem', p, Some(m), {m, n});
    SegFrame(mem, mem', r, None, {m, n});
    Alone(mem'.mbufs, m);
    SegJoin(mem'.mbufs, p, [m], None);
    UntouchedTrans(mem0, mem, mem', all, {m, n});
    CatBytes(mem, mem', p, m, n, r);
    CatLess(mem0, mem, mem', a, rest, all);
  }

  lemma {:induction false} CatLess(mem0: Mem, mem: Mem, mem': Mem, a: seq<Id>, rest: seq<Id>, all: set<Id>)
    requires rest != [] && rest[0] in all && rest[0] !in a && LinkedTo(mem.mbufs, rest, None)
    requires Live(mem) == Live(mem0) - all + Members(a) + Members(rest)
    requires forall x :: x in mem'.mbufs <==> x in mem.mbufs && x != rest[0]
    ensures Live(mem') == Live(mem0) - all + Members(a) + Members(rest[1..])
  {
    assert rest[0] !in rest[1..];
    hide LinkedTo;
    forall x ensures x in Live(mem') <==> x in Live(mem0) - all + Members(a) + Members(rest[1..]) {
      assert x in rest <==> x == rest[0] || x in rest[1..];
    }
  }

  lemma {:induction false} CatBytes(mem: Mem, mem': Mem, p: seq<Id>, m: Id, n: Id, r: seq<Id>)
    requires ChainBytes(mem', p) == ChainBytes(mem, p) && ChainBytes(mem', r) == ChainBytes(mem, r)
    requires Bytes(mem', m) == Bytes(mem, m) + Bytes(mem, n)
    ensures ChainBytes(mem', p + [m]) + ChainBytes(mem', r) == ChainBytes(mem, p + [m]) + ChainBytes(mem, [n] + r)
  {
    hide ChainBytes, Bytes;
    BytesConcat(mem', p, [m]);
    BytesConcat(mem, p, [m]);
    BytesConcat(mem, [n], r);
    BytesOne(mem', m);
    BytesOne(mem, m);
    BytesOne(mem, n);
    assert ChainBytes(mem, p) + (Bytes(mem, m) + Bytes(mem, n)) + ChainBytes(mem, r)
        == ChainBytes(mem, p) + Bytes(mem, m) + (Bytes(mem, n) + ChainBytes(mem, r));
  }

  lemma {:induction false} CatJoin(mem0: Mem, mem: Mem, a: seq<Id>, rest: seq<Id>, q: seq<byte>, all: set<Id>)
    requires Catting(mem0, mem, a, rest, q, all)
    ensures a[|a| - 1] in mem.mbufs
    ensures Catting(mem0, SetNext(mem, a[|a| - 1], Head(rest, None)), a + rest, [], q, all)
  {
    hide Ok, Untouched, SetNext, ChainBytes, Distinct, Live;
    var m := a[|a| - 1];
    assert m in a;
    SetEnd(mem, a, None, Head(rest, None));
    var mem' := SetNext(mem, m, Head(rest, None));
    SegFrame(mem, mem', rest, None, {m});
    SegJoin(mem'.mbufs, a, rest, None);
    BytesConcat(mem', a, rest);
    UntouchedTrans(mem0, mem, mem', all, {m});
    NothingLinked(mem', None);
    NoBytes(mem');
    NextLive(mem, m, Head(rest, None));
    JoinMembers(Live(mem0) - all, a, rest);
  }

  lemma {:induction false} JoinMembers(s: set<Id>, a: seq<Id>, b: seq<Id>)
    ensures s + Members(a + b) + Members([]) == s + Members(a) + Members(b)
  {
    assert Members([]) == {};
    assert Members(a + b) == Members(a) + Members(b);
  }

  lemma {:induction false} NoBytes(mem: Mem)
    ensures ChainBytes(mem, []) == []
  {
  }

  // ---- Allocation ----

  /** i is a new, empty mbuf with room for that many bytes; nothing else changed. */
  ghost predicate NewOne(mem0: Mem, mem: Mem, i: Id, room: nat) {
    && i !in mem0.mbufs && Ok(mem) && Untouched(mem0, mem, {}) && i in mem.mbufs && mem.mbufs[i].next == None
    && Bytes(mem, i) == [] && Writable(mem, i) && Trailing(mem, i) == room
    && (forall s :: s in mem0.stores ==> s in mem.stores && mem.stores[s] == mem0.stores[s])
    && Live(mem) == Live(mem0) + {i}
  }

  /** i is a new mbuf holding d. */
  ghost predicate NewWith(mem0: Mem, mem: Mem, i: Id, d: seq<byte>) {
    && i !in mem0.mbufs && Ok(mem) && Untouched(mem0, mem, {}) && i in mem.mbufs && Bytes(mem, i) == d
    && mem.mbufs[i].next == None && Live(mem) == Live(mem0) + {i}
  }

  lemma {:induction false} FillNew(mem0: Mem, mem: Mem, i: Id, room: nat, d: seq<byte>)
    requires NewOne(mem0, mem, i, room) && |d| <= room
    ensures i in mem.mbufs && FitsIn(mem.mbufs[i], mem.stores)
    ensures mem.mbufs[i].off + mem.mbufs[i].len + |d| <= |mem.stores[mem.mbufs[i].store].bytes|
    ensures NewWith(mem0, Extend(mem, i, d), i, d)
  {
    FitsOf(mem, i);
    hide Ok, Untouched;
    ExtendOk(mem, i, d);
    UntouchedFresh(mem0, mem, Extend(mem, i, d), i);
  }

  lemma {:induction false} UntouchedFresh(mem0: Mem, mem: Mem, mem': Mem, i: Id)
    requires Untouched(mem0, mem, {}) && Untouched(mem, mem', {i}) && i !in mem0.mbufs
    ensures Untouched(mem0, mem', {})
  {
  }

  predicate Ext(mem: Mem, i: Id) {
    i in mem.mbufs && mem.mbufs[i].store in mem.stores && mem.stores[mem.mbufs[i].store].ext
  }

  lemma {:induction false} SharedTail(mem: Mem, i: Id, m: Id, len: nat, hdr: bool)
    requires Ok(mem) && Ext(mem, m) && len <= Len(mem, m) && i !in mem.mbufs
    ensures len <= |Bytes(mem, m)|
    ensures var b := mem.mbufs[m];
            NewWith(mem, NewShared(mem, i, m, b.off + len, b.len - len, hdr), i, Bytes(mem, m)[len..])
  {
    hide Ok, Untouched, NewShared;
    FitsOf(mem, m);
    ChainLength(mem, [], m);
    var b := mem.mbufs[m];
    assert Bytes(mem, m) == mem.stores[b.store].bytes[b.off..b.off + b.len];
    hide Bytes;
    NewSharedOk(mem, i, m, b.off + len, b.len - len, hdr);
    SharedLive(mem, i, m, b.off + len, b.len - len, hdr);
    TailOf(mem.stores[b.store].bytes, b.off, b.len, len);
  }

  lemma {:induction false} SharedLive(mem: Mem, i: Id, m: Id, off: nat, len: nat, hdr: bool)
    requires m in mem.mbufs && mem.mbufs[m].store in mem.stores
    ensures Live(NewShared(mem, i, m, off, len, hdr)) == Live(mem) + {i}
  {
  }

  lemma {:induction false} MadeNew(mem: Mem, i: Id, s: Sid, room: seq<byte>, ext: bool, off: nat, hdr: bool)
    requires Ok(mem) && i !in mem.mbufs && s !in mem.stores && off <= |room|
    ensures NewOne(mem, NewMbuf(mem, i, s, room, ext, off, hdr), i, |room| - off)
  {
    hide Ok, Untouched, Bytes;
    NewMbufOk(mem, i, s, room, ext, off, hdr);
  }

  lemma {:induction false} TailOf(s: seq<byte>, off: nat, n: nat, len: nat)
    requires off + n <= |s| && len <= n
    ensures s[off..off + n][len..] == s[off + len..off + len + (n - len)]
  {
  }

  class Pool {
    const mlen: nat
    const mhlen: nat
    var mem: Mem
    var budget: nat

    /** m_get, m_gethdr or m_getcl: an empty mbuf with cap bytes of room, data starting at off. */
    method Get(cap: nat, ext: bool, off: nat, hdr: bool) returns (i: Option<Id>)
      requires Ok(mem) && off <= cap
      modifies this`mem, this`budget
      ensures i.None? ==> mem == old(mem)
      ensures (i.Some? <==> old(budget) > 0) && budget == if i.Some? then old(budget) - 1 else 0
      ensures i.Some? ==> NewOne(old(mem), mem, i.value, cap - off) && Ext(mem, i.value) == ext
    {
      if budget == 0 { return None; }
      budget := budget - 1;
      var id := FreshId(mem.mbufs.Keys);
      var sid := FreshId(mem.stores.Keys);
      var room: seq<byte> := seq(cap, _ => 0);
      MadeNew(mem, id, sid, room, ext, off, hdr);
      hide NewOne, NewMbuf;
      mem := NewMbuf(mem, id, sid, room, ext, off, hdr);
      i := Some(id);
    }

    /** A new mbuf with the bytes of m from len on: on the same cluster, or copied. */
    method MakeTail(m: Id, len: nat, hdr: bool) returns (n: Option<Id>)
      requires Ok(mem) && m in mem.mbufs && len <= Len(mem, m)
      requires !Ext(mem, m) ==> Len(mem, m) - len <= if hdr then mhlen else mlen
      modifies this`mem, this`budget
      ensures n.None? ==> mem == old(mem)
      ensures (n.Some? <==> old(budget) > 0) && budget == if n.Some? then old(budget) - 1 else 0
      ensures len <= |Bytes(old(mem), m)|
      ensures n.Some? ==> NewWith(old(mem), mem, n.value, Bytes(old(mem), m)[len..])
    {
      hide Ok, NewOne, NewWith, Bytes, Untouched, Extend;
      FitsOf(mem, m);
      ChainLength(mem, [], m);
      var d := Bytes(mem, m)[len..];
      if Ext(mem, m) {
        n := ShareTail(m, len, hdr);
      } else {
        var cap := if hdr then mhlen else mlen;
        var slack := cap - |d|;
        n := Get(cap, false, slack - slack % 8, hdr);
        if n.Some? {
          FillNew(old(mem), mem, n.value, cap - (slack - slack % 8), d);
          mem := Extend(mem, n.value, d);
        }
      }
    }

    method ShareTail(m: Id, len: nat, hdr: bool) returns (n: Option<Id>)
      requires Ok(mem) && Ext(mem, m) && len <= Len(mem, m)
      modifies this`mem, this`budget
      ensures n.None? ==> mem == old(mem)
      ensures (n.Some? <==> old(budget) > 0) && budget == if n.Some? then old(budget) - 1 else 0
      ensures len <= |Bytes(old(mem), m)|
      ensures n.Some? ==> NewWith(old(mem), mem, n.value, Bytes(old(mem), m)[len..])
    {
      hide Ok, Untouched, Bytes, NewWith, NewShared;
      FitsOf(mem, m);
      ChainLength(mem, [], m);
      if budget == 0 { return None; }
      budget := budget - 1;
      var id := FreshId(mem.mbufs.Keys);
      var b := mem.mbufs[m];
      SharedTail(mem, id, m, len, hdr);
      mem := NewShared(mem, id, m, b.off + len, b.len - len, hdr);
      n := Some(id);
    }

    /** The mbuf in which byte len0 of a chain lies, or at whose end. */
    method Locate(m0: Id, len0: nat, ghost c: seq<Id>) returns (m: Option<Id>, len: nat, ghost k: nat)
      requires Ok(mem) && c != [] && c[0] == m0 && LinkedTo(mem.mbufs, c, None)
      ensures m.Some? <==> len0 <= |ChainBytes(mem, c)|
      ensures m.Some? ==> SplitNeed(mem, c, len0, Hdr(mem, m0), mhlen) == NeedAt(mem, m.value, len, Hdr(mem, m0), mhlen)
      ensures m.Some? ==> k < |c| && c[k] == m.value && len <= Len(mem, m.value)
                          && |ChainBytes(mem, c[..k])| + len == len0
    {
      m, len, k := Some(m0), len0, 0;
      NoBytes(mem);
      assert c[..0] == [];
      while m.Some? && len > Len(mem, m.value)
        invariant k <= |c| && m == Head(c[k..], None) && |ChainBytes(mem, c[..k])| + len == len0
        invariant m.None? ==> len > 0
        invariant SplitNeed(mem, c, len0, Hdr(mem, m0), mhlen) == SplitNeed(mem, c[k..], len, Hdr(mem, m0), mhlen)
        decreases |c| - k
      {
        PrefixBytes(mem, c, k);
        assert c[k..][1..] == c[k + 1..];
        len := len - Len(mem, m.value);
        m := mem.mbufs[m.value].next;
        k := k + 1;
      }
      if m.None? { assert c[..k] == c; } else { InPrefix(mem, c, k); }
    }

    /** Cut at m with a new mbuf for what m gives up. */
    method SplitOff(m: Id, len: nat, hdr: bool, ghost p: seq<Id>, ghost q: seq<Id>) returns (n: Option<Id>)
      requires Ok(mem) && LinkedTo(mem.mbufs, p + ([m] + q), None) && len <= Len(mem, m)
      requires !Ext(mem, m) ==> Len(mem, m) - len <= if hdr then mhlen else mlen
      modifies this`mem, this`budget
      ensures n.None? ==> mem == old(mem)
      ensures (n.Some? <==> old(budget) > 0) && budget == if n.Some? then old(budget) - 1 else 0
      ensures n.Some? ==>
                Cut(old(mem), mem, p + ([m] + q), |old(ChainBytes(mem, p))| + len, p + [m], [n.value] + q)
    {
      hide Ok, LinkedTo, Bytes, ChainBytes, Cut, NewWith;
      InChain(mem.mbufs, p, m, q);
      ChainLength(mem, [], m);
      n := MakeTail(m, len, hdr);
      if n.Some? {
        CutWith(old(mem), mem, p, m, q, n.value, len);
        mem := CutAt(mem, m, n.value, len);
      }
    }

    /** Cut behind m with an empty packet header in front of the rest. */
    method SplitEmpty(m: Id, ghost p: seq<Id>, ghost q: seq<Id>) returns (n: Option<Id>)
      requires Ok(mem) && LinkedTo(mem.mbufs, p + ([m] + q), None)
      modifies this`mem, this`budget
      ensures n.None? ==> mem == old(mem)
      ensures (n.Some? <==> old(budget) > 0) && budget == if n.Some? then old(budget) - 1 else 0
      ensures n.Some? ==>
                Cut(old(mem), mem, p + ([m] + q), |old(ChainBytes(mem, p))| + Len(old(mem), m), p + [m], [n.value] + q)
    {
      hide Ok, LinkedTo, ChainBytes, Cut;
      InChain(mem.mbufs, p, m, q);
      ChainLength(mem, [], m);
      ghost var none := Bytes(mem, m)[Len(mem, m)..];
      var len := Len(mem, m);
      n := Get(mhlen, false, 0, true);
      if n.Some? {
        assert NewWith(old(mem), mem, n.value, none);
        hide Bytes;
        CutWith(old(mem), mem, p, m, q, n.value, len);
        mem := CutAt(mem, m, n.value, len);
      }
    }

    /** m_split: keep the first len0 bytes at m0 and hand the rest over as a chain of its own.
        Not done means the chain is too short or an allocation failed; then nothing changed. */
    method Split(m0: Id, len0: nat, ghost c: seq<Id>)
      returns (n: Option<Id>, ghost done: bool, ghost a: seq<Id>, ghost b: seq<Id>)
      requires Ok(mem) && c != [] && c[0] == m0 && LinkedTo(mem.mbufs, c, None) && SizesOk(mem, c, mlen, mhlen)
      modifies this`mem, this`budget
      ensures done ==> a != [] && a[0] == m0 && n == Head(b, None) && Cut(old(mem), mem, c, len0, a, b)
      ensures !done ==> n == None && Ok(mem) && Untouched(old(mem), mem, {}) && Live(mem) == Live(old(mem))
      ensures done <==> && len0 <= |old(ChainBytes(mem, c))|
                        && SplitNeed(old(mem), c, len0, Hdr(old(mem), m0), mhlen) <= old(budget)
      decreases Hdr(mem, m0), 1
    {
      hide Ok, LinkedTo, ChainBytes, Cut, SizesOk, Untouched, SplitNeed;
      UntouchedSelf(mem);
      var at, len;
      ghost var k;
      at, len, k := Locate(m0, len0, c);
      if at.None? { return None, false, [], []; }
      var m := at.value;
      ghost var p, q := c[..k], c[k + 1..];
      assert c == p + ([m] + q);
      SizeAt(mem, c, mlen, mhlen, k);
      a := p + [m];
      if Hdr(mem, m0) {
        if len == Len(mem, m) {
          n := SplitEmpty(m, p, q);
        } else if Ext(mem, m) || Len(mem, m) - len <= mhlen {
          n := SplitOff(m, len, true, p, q);
        } else {
          n, done, a, b := SplitBelow(m, len, p, q, c);
          return;
        }
      } else if len == Len(mem, m) {
        n := SplitPlain(m, p, q);
        done, b := true, q;
        return;
      } else {
        n := SplitOff(m, len, false, p, q);
      }
      done := n.Some?;
      b := if n.Some? then [n.value] + q else [];
    }

    /** Cut between m and what follows it. */
    method SplitPlain(m: Id, ghost p: seq<Id>, ghost q: seq<Id>) returns (n: Option<Id>)
      requires Ok(mem) && LinkedTo(mem.mbufs, p + ([m] + q), None)
      modifies this`mem
      ensures n == Head(q, None)
      ensures Cut(old(mem), mem, p + ([m] + q), |old(ChainBytes(mem, p))| + Len(old(mem), m), p + [m], q)
    {
      hide Ok, LinkedTo, Bytes, ChainBytes, Untouched;
      InChain(mem.mbufs, p, m, q);
      ChainLength(mem, [], m);
      SplitBetween(mem, p, m, q);
      PlainLive(mem, p, m, q);
      n := mem.mbufs[m].next;
      mem := SetNext(mem, m, None);
    }

    /** A packet header of its own in front of a split further down the chain. */
    method SplitBelow(m: Id, len: nat, ghost p: seq<Id>, ghost q: seq<Id>, ghost c: seq<Id>)
      returns (n: Option<Id>, ghost done: bool, ghost a: seq<Id>, ghost b: seq<Id>)
      requires Ok(mem) && c == p + ([m] + q) && LinkedTo(mem.mbufs, c, None) && SizesOk(mem, c, mlen, mhlen)
      requires p != [] && len < Len(mem, m) && !Hdr(mem, m)
      modifies this`mem, this`budget
      ensures done ==> a != [] && a[0] == c[0] && n == Head(b, None)
                       && Cut(old(mem), mem, c, |old(ChainBytes(mem, p))| + len, a, b)
      ensures !done ==> n == None && Ok(mem) && Untouched(old(mem), mem, {}) && Live(mem) == Live(old(mem))
      ensures done <==> old(budget) >= 2
      decreases true, 0
    {
      hide Ok, LinkedTo, ChainBytes, Cut, SizesOk, Untouched, NewOne, SplitNeed;
      a, b := [], [];
      var n0 := Get(mhlen, false, mhlen - mhlen % 8, true);
      if n0.None? {
        UntouchedSelf(mem);
        return None, false, a, b;
      }
      ghost var mem1 := mem;
      BelowStart(old(mem), mem, n0.value, mhlen % 8, p, m, q, mlen, mhlen);
      BelowMore(old(mem), mem1, n0.value, mhlen % 8, p, m, q, len);
      var n2;
      n2, done, a, b := Split(m, len, [m] + q);
      if n2.None? {
        BelowFail(old(mem), mem1, mem, n0.value, mhlen % 8, [m] + q, len, a, b, done);
        mem := FreeOne(mem, n0.value);
        return None, false, a, b;
      }
      BelowDone(old(mem), mem1, mem, n0.value, mhlen % 8, p, m, q, len, a, b);
      mem := SetNext(mem, n0.value, n2);
      n := n0;
      a, b := p + a, [n0.value] + b;
    }

    /** A chain cut in two and joined again holds what it held, in mbufs that were in it or are
        new, and whoever shares its clusters has seen nothing. */
    method SplitAndCat(m0: Id, len: nat, ghost c: seq<Id>) returns (ghost done: bool, ghost d: seq<Id>)
      requires Ok(mem) && c != [] && c[0] == m0 && LinkedTo(mem.mbufs, c, None) && SizesOk(mem, c, mlen, mhlen)
      modifies this`mem, this`budget
      ensures done ==> Rearranged(old(mem), mem, c, d) && d != [] && d[0] == m0
      ensures !done ==> Ok(mem) && Untouched(old(mem), mem, {}) && Live(mem) == Live(old(mem)) && d == c
      ensures done <==> && len <= |old(ChainBytes(mem, c))|
                        && SplitNeed(old(mem), c, len, Hdr(old(mem), m0), mhlen) <= old(budget)
    {
      hide Ok, LinkedTo, ChainBytes, Untouched, SizesOk, Cut, Rearranged, Live, SplitNeed;
      ghost var mem0, a, b := mem, [], [];
      var n;
      n, done, a, b := Split(m0, len, c);
      d := c;
      if n.Some? {
        CutParts(mem0, mem, c, len, a, b);
        ghost var mem1 := mem;
        d := Cat(m0, n, a, b);
        Rejoined(mem0, mem1, mem, c, len, a, b, d);
      } else if done {
        NothingCut(mem0, mem, c, len, a, b);
        d := a;
      }
    }

    /** The last mbuf of a chain. */
    method Last(m0: Id, ghost a: seq<Id>) returns (m: Id)
      requires a != [] && a[0] == m0 && LinkedTo(mem.mbufs, a, None)
      ensures m == a[|a| - 1]
    {
      m := m0;
      ghost var k := 0;
      while mem.mbufs[m].next.Some?
        invariant k < |a| && m == a[k]
        decreases |a| - k
      {
        m := mem.mbufs[m].next.value;
        k := k + 1;
      }
    }

    /** m_cat: append the chain at n0 to the chain at m0, copying as long as it fits. */
    method Cat(m0: Id, n0: Option<Id>, ghost a: seq<Id>, ghost b: seq<Id>) returns (ghost c: seq<Id>)
      requires Ok(mem) && a != [] && a[0] == m0 && LinkedTo(mem.mbufs, a, None)
      requires n0 == Head(b, None) && LinkedTo(mem.mbufs, b, None) && Apart(a, b)
      modifies this`mem
      ensures Ok(mem) && c != [] && c[0] == m0 && LinkedTo(mem.mbufs, c, None)
      ensures ChainBytes(mem, c) == old(ChainBytes(mem, a) + ChainBytes(mem, b))
      ensures Untouched(old(mem), mem, Members(a) + Members(b))
      ensures forall x :: x in c ==> x in a || x in b
      ensures Live(mem) == Live(old(mem)) - (Members(a) + Members(b)) + Members(c)
      ensures b != [] && Trailing(old(mem), a[|a| - 1]) < Len(old(mem), b[0]) && a[|a| - 1] in old(mem).mbufs ==>
                c == a + b && mem == SetNext(old(mem), a[|a| - 1], n0)
    {
      hide Catting, Ok, Untouched, LinkedTo, ChainBytes, AbsorbFits, Live, SetNext, Absorb, Trailing, Writable, Len;
      var m := Last(m0, a);
      var n := n0;
      ghost var rest, q, all := b, ChainBytes(mem, a) + ChainBytes(mem, b), Members(a) + Members(b);
      CatStart(mem, a, b);
      while n.Some?
        invariant Catting(old(mem), mem, a, rest, q, all) && n == Head(rest, None)
        invariant if |rest| == |b| then mem == old(mem) && rest == b
                  else b != [] && Len(old(mem), b[0]) <= Trailing(old(mem), a[|a| - 1])
        decreases |rest|
      {
        CatLive(old(mem), mem, a, rest, q, all);
        if !Writable(mem, m) || Trailing(mem, m) < Len(mem, n.value) {
          CatJoin(old(mem), mem, a, rest, q, all);
          mem := SetNext(mem, m, n);
          c := a + rest;
          CatDone(old(mem), mem, c, q, all);
          return;
        }
        CatAbsorb(old(mem), mem, a, rest, q, all);
        var next := mem.mbufs[n.value].next;
        mem := Absorb(mem, m, n.value, None);
        n := next;
        rest := rest[1..];
      }
      c := a;
      CatDone(old(mem), mem, c, q, all);
    }
  }

  // ---- m_split ----

  /** Sizes a chain may have: room inside an mbuf is mlen, or mhlen with a packet header, which
      only the first has. */
  ghost predicate SizesOk(mem: Mem, c: seq<Id>, mlen: nat, mhlen: nat) {
    && (forall i :: 0 <= i < |c| && !Ext(mem, c[i]) ==> Len(mem, c[i]) <= mlen)
    && (c != [] && !Ext(mem, c[0]) && Hdr(mem, c[0]) ==> Len(mem, c[0]) <= mhlen)
    && (forall i :: 0 < i < |c| ==> !Hdr(mem, c[i]))
  }

  /** How many mbufs a cut len bytes into m takes. */
  function NeedAt(mem: Mem, m: Id, len: nat, hdr: bool, mhlen: nat): nat {
    if !hdr then (if len == Len(mem, m) then 0 else 1)
    else if len == Len(mem, m) || Ext(mem, m) || Len(mem, m) - len <= mhlen then 1 else 2
  }

  /** How many mbufs a cut len bytes into the chain takes; hdr says that it has a packet header. */
  ghost function SplitNeed(mem: Mem, c: seq<Id>, len: nat, hdr: bool, mhlen: nat): nat {
    if c == [] then 0 else if len <= Len(mem, c[0]) then NeedAt(mem, c[0], len, hdr, mhlen)
    else SplitNeed(mem, c[1..], len - Len(mem, c[0]), hdr, mhlen)
  }

  lemma {:induction false} InPrefix(mem: Mem, c: seq<Id>, k: nat)
    requires Ok(mem) && LinkedTo(mem.mbufs, c, None) && k < |c|
    ensures |ChainBytes(mem, c[..k])| + Len(mem, c[k]) <= |ChainBytes(mem, c)|
  {
    hide Ok, LinkedTo, ChainBytes;
    PrefixBytes(mem, c, k);
    assert c == c[..k + 1] + c[k + 1..];
    BytesConcat(mem, c[..k + 1], c[k + 1..]);
  }

  predicate Hdr(mem: Mem, i: Id) { i in mem.mbufs && mem.mbufs[i].hdr }

  /** The chain c was cut after len bytes into a and b. */
  ghost predicate Cut(mem0: Mem, mem: Mem, c: seq<Id>, len: nat, a: seq<Id>, b: seq<Id>) {
    && Ok(mem) && LinkedTo(mem.mbufs, a, None) && LinkedTo(mem.mbufs, b, None) && Apart(a, b)
    && len <= |ChainBytes(mem0, c)|
    && ChainBytes(mem, a) == ChainBytes(mem0, c)[..len] && ChainBytes(mem, b) == ChainBytes(mem0, c)[len..]
    && Untouched(mem0, mem, Members(c)) && OldOrFresh(a, c, mem0) && OldOrFresh(b, c, mem0)
    && Live(mem) == Live(mem0) - Members(c) + Members(a) + Members(b)
  }

  /** Every mbuf of a was in c, or is new since mem0. */
  ghost predicate OldOrFresh(a: seq<Id>, c: seq<Id>, mem0: Mem) { forall x :: x in a ==> x in c || x !in mem0.mbufs }

  ghost predicate Off(c: seq<Id>, n: Id) { n !in c }

  lemma {:induction false} SizeAt(mem: Mem, c: seq<Id>, mlen: nat, mhlen: nat, k: nat)
    requires SizesOk(mem, c, mlen, mhlen) && k < |c|
    ensures !Ext(mem, c[k]) ==> Len(mem, c[k]) <= mlen
    ensures k == 0 && !Ext(mem, c[k]) && Hdr(mem, c[k]) ==> Len(mem, c[k]) <= mhlen
    ensures k > 0 ==> !Hdr(mem, c[k])
  {
  }

  lemma {:induction false} InChain(mbufs: map<Id, Mbuf>, p: seq<Id>, m: Id, q: seq<Id>)
    requires LinkedTo(mbufs, p + ([m] + q), None)
    ensures m in mbufs
  {
    assert (p + ([m] + q))[|p|] == m;
  }

  lemma {:induction false} PrefixBytes(mem: Mem, c: seq<Id>, k: nat)
    requires Ok(mem) && LinkedTo(mem.mbufs, c, None) && k < |c|
    ensures |ChainBytes(mem, c[..k + 1])| == |ChainBytes(mem, c[..k])| + Len(mem, c[k])
    ensures c[k] in mem.mbufs && mem.mbufs[c[k]].next == Head(c[k + 1..], None)
  {
    assert c[..k + 1] == c[..k] + [c[k]];
    BytesConcat(mem, c[..k], [c[k]]);
    BytesOne(mem, c[k]);
    ChainLength(mem, c, c[k]);
  }

  lemma {:induction false} NewFactsWith(mem0: Mem, mem: Mem, i: Id, d: seq<byte>)
    requires NewWith(mem0, mem, i, d)
    ensures i !in mem0.mbufs && i in mem.mbufs && Ok(mem) && Untouched(mem0, mem, {}) && Bytes(mem, i) == d
    ensures Live(mem) == Live(mem0) + {i}
  {
  }

  /** Cutting with a freshly made tail. */
  lemma {:induction false} CutWith(mem0: Mem, mem: Mem, p: seq<Id>, m: Id, q: seq<Id>, n: Id, len: nat)
    requires Ok(mem0) && LinkedTo(mem0.mbufs, p + ([m] + q), None)
    requires len <= Len(mem0, m) == |Bytes(mem0, m)| && NewWith(mem0, mem, n, Bytes(mem0, m)[len..])
    ensures m in mem.mbufs && n in mem.mbufs && n !in mem0.mbufs
    ensures Cut(mem0, CutAt(mem, m, n, len), p + ([m] + q), |ChainBytes(mem0, p)| + len, p + [m], [n] + q)
  {
    hide Ok, Untouched, Bytes, ChainBytes, CutAt, LinkedTo, Cut, OldOrFresh, Apart, NewWith, Live, Members, Len;
    var c := p + ([m] + q);
    NewFactsWith(mem0, mem, n, Bytes(mem0, m)[len..]);
    CutFrame(mem0, mem, p, m, q, n);
    SplitOk(mem, p, m, q, n, len);
    CutUntouched(mem0, mem, CutAt(mem, m, n, len), c, n);
    CutFresh(mem0, p, m, q, n);
    CutLive(mem0, mem, p, m, q, n, len);
    MakeCut(mem0, CutAt(mem, m, n, len), c, |ChainBytes(mem0, p)| + len, p + [m], [n] + q);
  }

  lemma {:induction false} CutFrame(mem0: Mem, mem: Mem, p: seq<Id>, m: Id, q: seq<Id>, n: Id)
    requires LinkedTo(mem0.mbufs, p + ([m] + q), None) && Untouched(mem0, mem, {}) && n !in mem0.mbufs
    ensures LinkedTo(mem.mbufs, p + ([m] + q), None) && n !in p + ([m] + q) && m in mem.mbufs
    ensures Bytes(mem, m) == Bytes(mem0, m) && Len(mem, m) == Len(mem0, m)
    ensures ChainBytes(mem, p) == ChainBytes(mem0, p)
    ensures ChainBytes(mem, p + ([m] + q)) == ChainBytes(mem0, p + ([m] + q))
  {
    hide Untouched, Bytes, ChainBytes, LinkedTo, Len;
    InChain(mem0.mbufs, p, m, q);
    SegFrame(mem0, mem, p + ([m] + q), None, {});
    NotInChain(mem0.mbufs, p + ([m] + q), n);
    FrameAt(mem0, mem, m);
    SegSplit(mem0.mbufs, p, [m] + q, None);
    SegFrame(mem0, mem, p, Some(m), {});
  }

  lemma {:induction false} PlainLive(mem: Mem, p: seq<Id>, m: Id, q: seq<Id>)
    requires LinkedTo(mem.mbufs, p + ([m] + q), None)
    ensures m in mem.mbufs
    ensures Live(SetNext(mem, m, None)) == Live(mem) - Members(p + ([m] + q)) + Members(p + [m]) + Members(q)
  {
    var c := p + ([m] + q);
    InChain(mem.mbufs, p, m, q);
    NextLive(mem, m, None);
    forall x | x in c ensures x in Live(mem) { var i :| 0 <= i < |c| && c[i] == x; }
    hide LinkedTo;
    forall x ensures x in Members(c) <==> x in Members(p + [m]) + Members(q) {
    }
  }

  lemma {:induction false} CutLive(mem0: Mem, mem: Mem, p: seq<Id>, m: Id, q: seq<Id>, n: Id, len: nat)
    requires LinkedTo(mem0.mbufs, p + ([m] + q), None) && m in mem.mbufs && n in mem.mbufs
    requires Live(mem) == Live(mem0) + {n}
    ensures Live(CutAt(mem, m, n, len)) == Live(mem0) - Members(p + ([m] + q)) + Members(p + [m]) + Members([n] + q)
  {
    var c := p + ([m] + q);
    assert Live(CutAt(mem, m, n, len)) == Live(mem);
    forall x | x in c ensures x in Live(mem0) { var i :| 0 <= i < |c| && c[i] == x; }
    hide LinkedTo, CutAt;
    forall x ensures x in Members(c) || x == n <==> x in Members(p + [m]) + Members([n] + q) {
    }
  }

  lemma {:induction false} CutFresh(mem0: Mem, p: seq<Id>, m: Id, q: seq<Id>, n: Id)
    requires n !in mem0.mbufs
    ensures OldOrFresh(p + [m], p + ([m] + q), mem0) && OldOrFresh([n] + q, p + ([m] + q), mem0)
  {
  }

  // A split below a new header: mem0 becomes mem1 by allocating n, and mem by the inner split.

  lemma {:induction false} NewFacts(mem0: Mem, mem1: Mem, n: Id, room: nat)
    requires NewOne(mem0, mem1, n, room)
    ensures n !in mem0.mbufs && n in mem1.mbufs && Ok(mem1) && Untouched(mem0, mem1, {}) && Bytes(mem1, n) == []
    ensures Live(mem1) == Live(mem0) + {n}
  {
  }

  lemma {:induction false} BelowStart(mem0: Mem, mem1: Mem, n: Id, room: nat, p: seq<Id>, m: Id, q: seq<Id>, mlen: nat,
                                      mhlen: nat)
    requires NewOne(mem0, mem1, n, room) && LinkedTo(mem0.mbufs, p + ([m] + q), None) && p != []
    requires Ok(mem0) && SizesOk(mem0, p + ([m] + q), mlen, mhlen)
    ensures Ok(mem1) && LinkedTo(mem1.mbufs, p + ([m] + q), None) && LinkedTo(mem1.mbufs, [m] + q, None)
    ensures SizesOk(mem1, [m] + q, mlen, mhlen) && !Hdr(mem1, m)
  {
    hide Ok, Untouched, NewOne, LinkedTo, Ext, Len, Hdr;
    NewFacts(mem0, mem1, n, room);
    var c := p + ([m] + q);
    SegFrame(mem0, mem1, c, None, {});
    SegSplit(mem1.mbufs, p, [m] + q, None);
    var t := [m] + q;
    forall i | 0 <= i < |t| ensures !Hdr(mem1, t[i]) && (!Ext(mem1, t[i]) ==> Len(mem1, t[i]) <= mlen) {
      assert t[i] == c[|p| + i];
      ChainKeeps(mem0, mem1, n, room, c, |p| + i);
    }
  }

  lemma {:induction false} ChainKeeps(mem0: Mem, mem1: Mem, n: Id, room: nat, c: seq<Id>, i: nat)
    requires Ok(mem0) && NewOne(mem0, mem1, n, room) && LinkedTo(mem0.mbufs, c, None) && i < |c|
    ensures Ext(mem1, c[i]) == Ext(mem0, c[i]) && Len(mem1, c[i]) == Len(mem0, c[i])
    ensures Hdr(mem1, c[i]) == Hdr(mem0, c[i])
  {
    FitsOf(mem0, c[i]);
    hide Ok;
    UntouchedAt(mem0, mem1, {}, c[i]);
  }

  lemma {:induction false} BelowMore(mem0: Mem, mem1: Mem, n: Id, room: nat, p: seq<Id>, m: Id, q: seq<Id>, len: nat)
    requires Ok(mem0) && NewOne(mem0, mem1, n, room) && LinkedTo(mem0.mbufs, p + ([m] + q), None) && len < Len(mem0, m)
    ensures len < |ChainBytes(mem1, [m] + q)| && forall mhlen :: SplitNeed(mem1, [m] + q, len, false, mhlen) == 1
  {
    hide LinkedTo, ChainBytes;
    InChain(mem0.mbufs, p, m, q);
    ChainLength(mem0, [], m);
    FrameAt(mem0, mem1, m);
    BytesConcat(mem1, [m], q);
    BytesOne(mem1, m);
  }

  /** The inner split failed: the new header goes again. */
  lemma {:induction false} BelowFail(mem0: Mem, mem1: Mem, mem: Mem, n: Id, room: nat, c: seq<Id>, len: nat, a: seq<Id>,
                                     b: seq<Id>, done: bool)
    requires NewOne(mem0, mem1, n, room) && len < |ChainBytes(mem1, c)|
    requires done ==> Head(b, None) == None && Cut(mem1, mem, c, len, a, b)
    requires !done ==> Ok(mem) && Untouched(mem1, mem, {}) && Live(mem) == Live(mem1)
    ensures !done && Ok(FreeOne(mem, n)) && Untouched(mem0, FreeOne(mem, n), {}) && Live(FreeOne(mem, n)) == Live(mem0)
  {
    if done {
      NoBytes(mem);
      assert false;
    }
    hide Ok, Untouched;
    NewFacts(mem0, mem1, n, room);
    FreeAny(mem, n);
    UntouchedTrans(mem0, mem1, mem, {}, {});
    UntouchedFresh(mem0, mem, FreeOne(mem, n), n);
  }

  lemma {:induction false} BelowDone(mem0: Mem, mem1: Mem, mem: Mem, n: Id, room: nat,
                                     p: seq<Id>, m: Id, q: seq<Id>, len: nat, a: seq<Id>, b: seq<Id>)
    requires Ok(mem0) && NewOne(mem0, mem1, n, room) && LinkedTo(mem0.mbufs, p + ([m] + q), None)
    requires Cut(mem1, mem, [m] + q, len, a, b) && a != [] && a[0] == m
    ensures n in mem.mbufs
    ensures Cut(mem0, SetNext(mem, n, Head(b, None)), p + ([m] + q), |ChainBytes(mem0, p)| + len, p + a, [n] + b)
  {
    hide Ok, Untouched, Bytes, ChainBytes, SetNext, NewOne, LinkedTo, Apart, OldOrFresh, Off, Members;
    var c := p + ([m] + q);
    NewFacts(mem0, mem1, n, room);
    NotInChain(mem0.mbufs, c, n);
    SegSplit(mem0.mbufs, p, [m] + q, None);
    SegFrame(mem0, mem1, c, None, {});
    SegFrame(mem0, mem1, p, Some(m), {});
    HeaderKept(mem1, mem, p, m, q, n);
    var mem' := SetNext(mem, n, Head(b, None));
    SetNextOk(mem, n, Head(b, None));
    OldOrNew(mem0, mem1, p, m, q, n, a, b);
    BelowLinked(mem1, mem, p, m, q, n, a, b);
    BelowBytes(mem0, mem1, mem', p, m, q, n, len, a, b);
    BelowUntouched(mem0, mem1, mem, mem', p, m, q, n);
    NextLive(mem, n, Head(b, None));
    BelowLive(mem0, mem1, mem, p, m, q, n, a, b);
    hide Cut, Live;
    MakeCut(mem0, mem', c, |ChainBytes(mem0, p)| + len, p + a, [n] + b);
  }

  lemma {:induction false} BelowLive(mem0: Mem, mem1: Mem, mem: Mem, p: seq<Id>, m: Id, q: seq<Id>, n: Id, a: seq<Id>,
                                     b: seq<Id>)
    requires LinkedTo(mem0.mbufs, p + ([m] + q), None) && Live(mem1) == Live(mem0) + {n} && n !in mem0.mbufs
    requires Live(mem) == Live(mem1) - Members([m] + q) + Members(a) + Members(b)
    ensures Live(mem) == Live(mem0) - Members(p + ([m] + q)) + Members(p + a) + Members([n] + b)
  {
    var c := p + ([m] + q);
    forall x | x in c ensures x in Live(mem0) { var i :| 0 <= i < |c| && c[i] == x; }
    SegSplit(mem0.mbufs, p, [m] + q, None);
    hide LinkedTo;
    forall x ensures x in Live(mem) <==> x in Live(mem0) - Members(c) + Members(p + a) + Members([n] + b) {
    }
  }

  lemma {:induction false} HeaderKept(mem1: Mem, mem: Mem, p: seq<Id>, m: Id, q: seq<Id>, n: Id)
    requires Untouched(mem1, mem, Members([m] + q)) && n in mem1.mbufs && n !in p + ([m] + q)
    ensures n in mem.mbufs && Bytes(mem, n) == Bytes(mem1, n)
  {
    UntouchedAt(mem1, mem, Members([m] + q), n);
  }

  lemma {:induction false} BelowUntouched(mem0: Mem, mem1: Mem, mem: Mem, mem': Mem, p: seq<Id>, m: Id, q: seq<Id>,
                                          n: Id)
    requires Untouched(mem0, mem1, {}) && Untouched(mem1, mem, Members([m] + q)) && Untouched(mem, mem', {n})
    requires n !in mem0.mbufs
    ensures Untouched(mem0, mem', Members(p + ([m] + q)))
  {
    hide Untouched;
    var c := p + ([m] + q);
    UntouchedWiden(mem0, mem1, {}, Members(c));
    UntouchedTrans(mem0, mem1, mem, Members(c), Members([m] + q));
    UntouchedTrans(mem0, mem, mem', Members(c), {n});
  }

  lemma {:induction false} CutParts(mem0: Mem, mem: Mem, c: seq<Id>, len: nat, a: seq<Id>, b: seq<Id>)
    requires Cut(mem0, mem, c, len, a, b)
    ensures Ok(mem) && LinkedTo(mem.mbufs, a, None) && LinkedTo(mem.mbufs, b, None) && Apart(a, b)
  {
  }

  lemma {:induction false} Rejoined(mem0: Mem, mem1: Mem, mem: Mem, c: seq<Id>, len: nat, a: seq<Id>, b: seq<Id>,
                                    d: seq<Id>)
    requires Cut(mem0, mem1, c, len, a, b) && Ok(mem) && LinkedTo(mem.mbufs, d, None)
    requires ChainBytes(mem, d) == ChainBytes(mem1, a) + ChainBytes(mem1, b)
    requires Untouched(mem1, mem, Members(a) + Members(b)) && (forall x :: x in d ==> x in a || x in b)
    requires Live(mem) == Live(mem1) - (Members(a) + Members(b)) + Members(d)
    ensures Rearranged(mem0, mem, c, d)
  {
    hide Ok, LinkedTo, ChainBytes;
    UntouchedTrans(mem0, mem1, mem, Members(c), Members(a) + Members(b));
    hide Untouched;
    assert ChainBytes(mem0, c)[..len] + ChainBytes(mem0, c)[len..] == ChainBytes(mem0, c);
    forall x ensures x in Live(mem) <==> x in Live(mem0) - Members(c) + Members(d) {
      assert x in a || x in b ==> x in c || x !in mem0.mbufs;
    }
  }

  lemma {:induction false} NothingCut(mem0: Mem, mem: Mem, c: seq<Id>, len: nat, a: seq<Id>, b: seq<Id>)
    requires Cut(mem0, mem, c, len, a, b) && Head(b, None) == None
    ensures Rearranged(mem0, mem, c, a)
  {
    hide Ok, LinkedTo, Untouched;
    assert b == [];
    NoBytes(mem);
    assert ChainBytes(mem0, c)[..len] + ChainBytes(mem0, c)[len..] == ChainBytes(mem0, c);
    assert Members(b) == {};
  }

  lemma {:induction false} MakeCut(mem0: Mem, mem: Mem, c: seq<Id>, len: nat, a: seq<Id>, b: seq<Id>)
    requires Ok(mem) && LinkedTo(mem.mbufs, a, None) && LinkedTo(mem.mbufs, b, None) && Apart(a, b)
    requires len <= |ChainBytes(mem0, c)|
    requires ChainBytes(mem, a) == ChainBytes(mem0, c)[..len] && ChainBytes(mem, b) == ChainBytes(mem0, c)[len..]
    requires Untouched(mem0, mem, Members(c)) && OldOrFresh(a, c, mem0) && OldOrFresh(b, c, mem0)
    requires Live(mem) == Live(mem0) - Members(c) + Members(a) + Members(b)
    ensures Cut(mem0, mem, c, len, a, b)
  {
  }

  lemma {:induction false} BelowLinked(mem1: Mem, mem: Mem, p: seq<Id>, m: Id, q: seq<Id>, n: Id, a: seq<Id>,
                                       b: seq<Id>)
    requires Ok(mem) && LinkedTo(mem1.mbufs, p, Some(m)) && Apart(p, [m] + q) && Untouched(mem1, mem, Members([m] + q))
    requires LinkedTo(mem.mbufs, a, None) && LinkedTo(mem.mbufs, b, None) && a != [] && a[0] == m && n in mem.mbufs
    requires Apart(p, a) && Apart([n], b) && Off(p, n) && Off(a, n) && Off(b, n)
    ensures var mem' := SetNext(mem, n, Head(b, None));
            && LinkedTo(mem'.mbufs, p + a, None) && LinkedTo(mem'.mbufs, [n] + b, None)
            && ChainBytes(mem', p) == ChainBytes(mem1, p)
            && ChainBytes(mem', a) == ChainBytes(mem, a) && ChainBytes(mem', b) == ChainBytes(mem, b)
  {
    hide Ok, Untouched, Bytes, ChainBytes, SetNext, LinkedTo;
    var mem' := SetNext(mem, n, Head(b, None));
    SetNextOk(mem, n, Head(b, None));
    SegFrame(mem1, mem, p, Some(m), Members([m] + q));
    SegFrame(mem, mem', p, Some(m), {n});
    SegFrame(mem, mem', a, None, {n});
    SegFrame(mem, mem', b, None, {n});
    Alone(mem'.mbufs, n);
    SegJoin(mem'.mbufs, p, a, None);
    SegJoin(mem'.mbufs, [n], b, None);
  }

  lemma {:induction false} NotInChain(mbufs: map<Id, Mbuf>, c: seq<Id>, n: Id)
    requires LinkedTo(mbufs, c, None) && n !in mbufs
    ensures n !in c
  {
  }

  lemma {:induction false} OldOrNew(mem0: Mem, mem1: Mem, p: seq<Id>, m: Id, q: seq<Id>, n: Id, a: seq<Id>, b: seq<Id>)
    requires LinkedTo(mem1.mbufs, p, Some(m)) && Apart(p, [m] + q) && n !in p + ([m] + q)
    requires n in mem1.mbufs && n !in mem0.mbufs && Apart(a, b) && Untouched(mem0, mem1, {})
    requires OldOrFresh(a, [m] + q, mem1) && OldOrFresh(b, [m] + q, mem1)
    ensures Off(p, n) && Off(a, n) && Off(b, n) && Apart(p, a) && Apart([n], b) && Apart(p + a, [n] + b)
    ensures OldOrFresh(p + a, p + ([m] + q), mem0) && OldOrFresh([n] + b, p + ([m] + q), mem0)
  {
    forall x | x in p ensures x in mem1.mbufs {
      var i :| 0 <= i < |p| && p[i] == x;
    }
    forall x | x in mem0.mbufs ensures x in mem1.mbufs {
      UntouchedAt(mem0, mem1, {}, x);
    }
    hide LinkedTo, Untouched;
  }

  lemma {:induction false} BelowBytes(mem0: Mem, mem1: Mem, mem: Mem, p: seq<Id>, m: Id, q: seq<Id>, n: Id, len: nat,
                                      a: seq<Id>, b: seq<Id>)
    requires ChainBytes(mem1, p + ([m] + q)) == ChainBytes(mem0, p + ([m] + q))
    requires ChainBytes(mem1, p) == ChainBytes(mem0, p) == ChainBytes(mem, p) && Bytes(mem, n) == []
    requires len <= |ChainBytes(mem1, [m] + q)|
    requires ChainBytes(mem, a) == ChainBytes(mem1, [m] + q)[..len]
    requires ChainBytes(mem, b) == ChainBytes(mem1, [m] + q)[len..]
    ensures var all := ChainBytes(mem0, p + ([m] + q)); var at := |ChainBytes(mem0, p)| + len;
            at <= |all| && ChainBytes(mem, p + a) == all[..at] && ChainBytes(mem, [n] + b) == all[at..]
  {
    hide ChainBytes, Bytes;
    BytesConcat(mem1, p, [m] + q);
    BytesConcat(mem, p, a);
    BytesConcat(mem, [n], b);
    BytesOne(mem, n);
  }

  lemma {:induction false} FrameAt(mem0: Mem, mem: Mem, m: Id)
    requires Untouched(mem0, mem, {}) && m in mem0.mbufs
    ensures m in mem.mbufs && Bytes(mem, m) == Bytes(mem0, m) && Len(mem, m) == Len(mem0, m)
  {
  }

  lemma {:induction false} CutUntouched(mem0: Mem, mem: Mem, mem': Mem, c: seq<Id>, n: Id)
    requires Untouched(mem0, mem, {}) && Untouched(mem, mem', Members(c) + {n}) && n !in mem0.mbufs
    ensures Untouched(mem0, mem', Members(c))
  {
  }

  lemma {:induction false} CatStart(mem: Mem, a: seq<Id>, b: seq<Id>)
    requires Ok(mem) && a != [] && LinkedTo(mem.mbufs, a, None) && LinkedTo(mem.mbufs, b, None) && Apart(a, b)
    ensures Catting(mem, mem, a, b, ChainBytes(mem, a) + ChainBytes(mem, b), Members(a) + Members(b))
  {
    forall x | x in a ensures x in Live(mem) { var i :| 0 <= i < |a| && a[i] == x; }
    forall x | x in b ensures x in Live(mem) { var i :| 0 <= i < |b| && b[i] == x; }
  }

  lemma {:induction false} CatLive(mem0: Mem, mem: Mem, a: seq<Id>, rest: seq<Id>, q: seq<byte>, all: set<Id>)
    requires Catting(mem0, mem, a, rest, q, all) && rest != []
    ensures a != [] && a[|a| - 1] in mem.mbufs && rest[0] in mem.mbufs
  {
  }

  lemma {:induction false} CatDone(mem0: Mem, mem: Mem, c: seq<Id>, q: seq<byte>, all: set<Id>)
    requires Catting(mem0, mem, c, [], q, all)
    ensures Ok(mem) && c != [] && LinkedTo(mem.mbufs, c, None) && ChainBytes(mem, c) == q && Untouched(mem0, mem, all)
    ensures Live(mem) == Live(mem0) - all + Members(c) && forall x :: x in c ==> x in all
  {
    assert Members(c) + Members([]) == Members(c);
  }
}

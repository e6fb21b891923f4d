/** Taking bytes, and whole records, off the front of a socket buffer of several records. */
module RecordCut {
  import opened Basics
  import opened MbufMem
  import opened MbufChains
  import opened MbufEdits
  import opened MbufPool
  import opened MbufUnshare
  import opened MbufPull
  import opened RecordShape
  import opened RecordAppend

  /** In the middle of a cut: cur is what is left of the record being cut, more the records behind it,
      and freed the list of mbufs to release. */
  ghost predicate CutState(mem: Mem, tags: Tags, cur: seq<Id>, more: seq<seq<Id>>, freed: seq<Id>, sums: Sums) {
    && Ok(mem) && LinkedTo(mem.mbufs, cur, None) && Tagged(tags, cur) && Apart(cur, Flat(more))
    && Shape(mem.mbufs, tags, more, None) && LinkedTo(mem.mbufs, freed, None)
    && Apart(freed, cur + Flat(more)) && Sum(mem.mbufs, tags, cur + Flat(more)) == sums
  }

  /** mem differs from mem0 in the mbufs of flat0 only, and what is left holds the bytes behind the
      first n. */
  ghost predicate CutBy(mem0: Mem, flat0: seq<Id>, mem: Mem, rest: seq<Id>, n: nat) {
    && n <= |ChainBytes(mem0, flat0)| && ChainBytes(mem, rest) == ChainBytes(mem0, flat0)[n..]
    && Untouched(mem0, mem, Members(flat0)) && forall x :: x in rest ==> x in flat0
  }

  /** cur is the end of record k - 1, and more the records from k on. */
  ghost predicate Within(recs0: seq<seq<Id>>, cur: seq<Id>, more: seq<seq<Id>>, k: nat) {
    k <= |recs0| && more == recs0[k..] && if k == 0 then cur == [] else EndOf(recs0[k - 1], cur)
  }

  ghost predicate EndOf(c: seq<Id>, cur: seq<Id>) { |cur| <= |c| && cur == c[|c| - |cur|..] }

  // ---- Turns ----

  /** The first mbuf goes, in whatever way mem' leaves the rest alone. */
  lemma {:induction false} TakeTurn(mem: Mem, mem': Mem, tags: Tags, cur: seq<Id>, more: seq<seq<Id>>, freed: seq<Id>,
                                    freed': seq<Id>, sums: Sums)
    requires CutState(mem, tags, cur, more, freed, sums) && cur != [] && Ok(mem') && Untouched(mem, mem', {cur[0]})
    requires LinkedTo(mem'.mbufs, freed', None) && forall x :: x in freed' ==> x in freed || x == cur[0]
    ensures CutState(mem', tags, cur[1..], more, freed', Minus(sums, Weight(mem.mbufs, tags, cur[0])))
    ensures ChainBytes(mem', cur[1..] + Flat(more)) == ChainBytes(mem, cur[1..] + Flat(more))
  {
    hide Ok, LinkedTo, Untouched, ChainBytes, Shape, Flat, Sum, Weight;
    var m, r := cur[0], cur[1..];
    CurTail(mem.mbufs, tags, cur, more);
    SegFrame(mem, mem', r, None, {m});
    MoreFrame(mem, mem', tags, more, m);
    BytesConcat(mem, r, Flat(more));
    BytesConcat(mem', r, Flat(more));
    TakeSum(mem, mem', tags, cur, more);
    forall x | x in freed' ensures x !in r + Flat(more) {
      if x in freed { assert x !in cur + Flat(more); assert x in r ==> x in cur; }
    }
  }

  lemma {:induction false} CurTail(mbufs: map<Id, Mbuf>, tags: Tags, cur: seq<Id>, more: seq<seq<Id>>)
    requires cur != [] && LinkedTo(mbufs, cur, None) && Tagged(tags, cur) && Apart(cur, Flat(more))
    ensures LinkedTo(mbufs, cur[1..], None) && Tagged(tags, cur[1..]) && Apart(cur[1..], Flat(more))
    ensures cur[0] in mbufs && cur[0] in tags && cur[0] !in cur[1..] && cur[0] !in Flat(more)
    ensures mbufs[cur[0]].next == Head(cur[1..], None)
    ensures forall x :: x in cur[1..] ==> x in cur
  {
    var m, r := cur[0], cur[1..];
    assert cur == [m] + r && cur == [] + ([m] + r) && m in cur;
    NextIs(mbufs, [], m, r);
    SegSplit(mbufs, [m], r, None);
    assert m in [m];
    hide LinkedTo;
    assert forall x :: x in r ==> x in cur;
  }

  lemma {:induction false} MoreFrame(mem: Mem, mem': Mem, tags: Tags, more: seq<seq<Id>>, m: Id)
    requires Shape(mem.mbufs, tags, more, None) && Untouched(mem, mem', {m}) && m !in Flat(more)
    ensures Shape(mem'.mbufs, tags, more, None) && ChainBytes(mem', Flat(more)) == ChainBytes(mem, Flat(more))
    ensures Sum(mem'.mbufs, tags, Flat(more)) == Sum(mem.mbufs, tags, Flat(more))
  {
    ShapeIn(mem.mbufs, tags, more, None);
    SameFrom(mem, mem', tags, tags, Flat(more), {m});
    hide Shape, Untouched, Flat, Sum, Same;
    ShapeFrame(mem.mbufs, tags, mem'.mbufs, tags, more, None);
    BytesFrame(mem, mem', Flat(more), {m});
  }

  lemma {:induction false} TakeSum(mem: Mem, mem': Mem, tags: Tags, cur: seq<Id>, more: seq<seq<Id>>)
    requires cur != [] && LinkedTo(mem.mbufs, cur, None) && cur[0] !in cur[1..] && Untouched(mem, mem', {cur[0]})
    requires Sum(mem'.mbufs, tags, Flat(more)) == Sum(mem.mbufs, tags, Flat(more))
    ensures Sum(mem'.mbufs, tags, cur[1..] + Flat(more))
              == Minus(Sum(mem.mbufs, tags, cur + Flat(more)), Weight(mem.mbufs, tags, cur[0]))
  {
    hide Sum, Weight, Untouched, Flat;
    var m, r, f := cur[0], cur[1..], Flat(more);
    assert cur == [m] + r;
    forall x | x in r ensures x in mem.mbufs && x in mem'.mbufs && mem'.mbufs[x] == mem.mbufs[x] {
      var i :| 0 <= i < |r| && r[i] == x;
      assert cur[i + 1] == x;
      UntouchedAt(mem, mem', {m}, x);
    }
    hide LinkedTo;
    SumSame(mem.mbufs, mem'.mbufs, tags, r);
    SumConcat(mem'.mbufs, tags, r, f);
    SumConcat(mem.mbufs, tags, cur, f);
    SumConcat(mem.mbufs, tags, [m], r);
    SumOne(mem.mbufs, tags, m);
  }

  lemma {:induction false} SumSame(mbufs: map<Id, Mbuf>, mbufs': map<Id, Mbuf>, tags: Tags, c: seq<Id>)
    requires forall x :: x in c ==> x in mbufs && x in mbufs' && mbufs'[x] == mbufs[x]
    ensures Sum(mbufs', tags, c) == Sum(mbufs, tags, c)
  {
    forall i | 0 <= i < |c| ensures Weight(mbufs', tags, c[i]) == Weight(mbufs, tags, c[i]) { assert c[i] in c; }
    SumFrame(mbufs, tags, mbufs', tags, c);
  }

  /** Onto the free list. */
  lemma {:induction false} FreeTurn(mem: Mem, tags: Tags, cur: seq<Id>, more: seq<seq<Id>>, freed: seq<Id>, sums: Sums)
    requires CutState(mem, tags, cur, more, freed, sums) && cur != []
    ensures cur[0] in mem.mbufs && cur[0] in tags && mem.mbufs[cur[0]].next == Head(cur[1..], None)
    ensures var mem' := SetNext(mem, cur[0], Head(freed, None));
            && CutState(mem', tags, cur[1..], more, [cur[0]] + freed, Minus(sums, Weight(mem.mbufs, tags, cur[0])))
            && ChainBytes(mem', cur[1..] + Flat(more)) == ChainBytes(mem, cur[1..] + Flat(more))
            && Untouched(mem, mem', {cur[0]})
  {
    hide Ok, LinkedTo, Untouched, ChainBytes, Shape, Flat, Sum, Weight, SetNext;
    var m := cur[0];
    CurTail(mem.mbufs, tags, cur, more);
    assert m in cur + Flat(more) && m !in freed;
    SetNextOk(mem, m, Head(freed, None));
    var mem' := SetNext(mem, m, Head(freed, None));
    SegFrame(mem, mem', freed, None, {m});
    Alone(mem'.mbufs, m);
    SegJoin(mem'.mbufs, [m], freed, None);
    TakeTurn(mem, mem', tags, cur, more, freed, [m] + freed, sums);
  }

  /** Left to whoever still fills it. */
  lemma {:induction false} LeaveTurn(mem: Mem, tags: Tags, cur: seq<Id>, more: seq<seq<Id>>, freed: seq<Id>, sums: Sums)
    requires CutState(mem, tags, cur, more, freed, sums) && cur != []
    ensures cur[0] in mem.mbufs && cur[0] in tags && mem.mbufs[cur[0]].next == Head(cur[1..], None)
    ensures CutState(mem, tags, cur[1..], more, freed, Minus(sums, Weight(mem.mbufs, tags, cur[0])))
  {
    hide Ok, LinkedTo, Untouched, ChainBytes, Shape, Flat, Sum, Weight;
    CurTail(mem.mbufs, tags, cur, more);
    UntouchedSelf(mem);
    UntouchedWiden(mem, mem, {}, {cur[0]});
    TakeTurn(mem, mem, tags, cur, more, freed, freed, sums);
  }

  /** On to the next record. */
  lemma {:induction false} NextTurn(mem: Mem, tags: Tags, more: seq<seq<Id>>, freed: seq<Id>, sums: Sums)
    requires CutState(mem, tags, [], more, freed, sums) && more != []
    ensures more[0] != [] && more[0][0] in tags && tags[more[0][0]].pkt == Lead(more[1..], 0, None)
    ensures CutState(mem, tags, more[0], more[1..], freed, sums) && more[0] + Flat(more[1..]) == [] + Flat(more)
  {
    hide Ok, Shape, Flat, Sum, Distinct;
    var c, r := more[0], more[1..];
    assert more == [c] + r;
    ShapeSplit(mem.mbufs, tags, [c], r, None);
    ShapeOne(mem.mbufs, tags, c, Lead(r, 0, None));
    assert [] + Flat(more) == Flat(more);
  }

  /** Part of the first mbuf goes. */
  lemma {:induction false} TrimTurn(mem: Mem, tags: Tags, cur: seq<Id>, more: seq<seq<Id>>, freed: seq<Id>, sums: Sums,
                                    len: nat)
    requires CutState(mem, tags, cur, more, freed, sums) && cur != [] && len <= Len(mem, cur[0])
    ensures cur[0] in mem.mbufs && cur[0] in tags && len <= mem.mbufs[cur[0]].len
    ensures var mem' := TrimFront(mem, cur[0], len);
            && CutState(mem', tags, cur, more, freed,
                        Minus(sums, Sums(len, if tags[cur[0]].kind.Other? then len else 0, 0)))
            && len <= |ChainBytes(mem, cur + Flat(more))|
            && ChainBytes(mem', cur + Flat(more)) == ChainBytes(mem, cur + Flat(more))[len..]
            && Untouched(mem, mem', {cur[0]})
  {
    hide Ok, LinkedTo, Untouched, ChainBytes, Shape, Flat, Sum, Weight, TrimFront;
    var m := cur[0];
    CurTail(mem.mbufs, tags, cur, more);
    TrimmedChain(mem, cur, len);
    var mem' := TrimFront(mem, m, len);
    MoreFrame(mem, mem', tags, more, m);
    assert m in cur && m in cur + Flat(more) && m !in freed;
    SegFrame(mem, mem', freed, None, {m});
    BytesConcat(mem, cur, Flat(more));
    BytesConcat(mem', cur, Flat(more));
    TrimSum(mem, tags, cur, more, len);
  }

  lemma {:induction false} TrimSum(mem: Mem, tags: Tags, cur: seq<Id>, more: seq<seq<Id>>, len: nat)
    requires cur != [] && cur[0] in mem.mbufs && cur[0] in tags && cur[0] !in cur[1..] && len <= mem.mbufs[cur[0]].len
    requires Sum(TrimFront(mem, cur[0], len).mbufs, tags, Flat(more)) == Sum(mem.mbufs, tags, Flat(more))
    ensures Sum(TrimFront(mem, cur[0], len).mbufs, tags, cur + Flat(more)) ==
              Minus(Sum(mem.mbufs, tags, cur + Flat(more)), Sums(len, if tags[cur[0]].kind.Other? then len else 0, 0))
  {
    hide Sum, Flat, Weight;
    var m, r, f := cur[0], cur[1..], Flat(more);
    var mbufs, mbufs' := mem.mbufs, TrimFront(mem, m, len).mbufs;
    assert cur == [m] + r;
    SumButOne(mbufs, mbufs', tags, m, r, len);
    SumConcat(mbufs, tags, cur, f);
    SumConcat(mbufs', tags, cur, f);
    SumConcat(mbufs, tags, [m], r);
    SumConcat(mbufs', tags, [m], r);
    SumOne(mbufs, tags, m);
    SumOne(mbufs', tags, m);
  }

  lemma {:induction false} SumButOne(mbufs: map<Id, Mbuf>, mbufs': map<Id, Mbuf>, tags: Tags, m: Id, r: seq<Id>,
                                     len: nat)
    requires m in mbufs && m in tags && m !in r && len <= mbufs[m].len
    requires mbufs' == mbufs[m := mbufs[m].(off := mbufs[m].off + len, len := mbufs[m].len - len)]
    ensures Sum(mbufs', tags, r) == Sum(mbufs, tags, r)
    ensures Weight(mbufs', tags, m)
              == Minus(Weight(mbufs, tags, m), Sums(len, if tags[m].kind.Other? then len else 0, 0))
  {
    forall i | 0 <= i < |r| ensures Weight(mbufs', tags, r[i]) == Weight(mbufs, tags, r[i]) { assert r[i] in r; }
    SumFrame(mbufs, tags, mbufs', tags, r);
    hide Sum;
  }

  // ---- The loop ----

  /** Everything the loop keeps. */
  ghost predicate Cutting(mem0: Mem, recs0: seq<seq<Id>>, mem: Mem, tags: Tags, cur: seq<Id>, more: seq<seq<Id>>,
                          freed: seq<Id>, sums: Sums, n: nat, k: nat)
  {
    && CutState(mem, tags, cur, more, freed, sums) && CutBy(mem0, Flat(recs0), mem, cur + Flat(more), n)
    && Within(recs0, cur, more, k) && From(freed, Flat(recs0))
  }

  ghost predicate From(freed: seq<Id>, flat0: seq<Id>) { forall x :: x in freed ==> x in flat0 }

  lemma {:induction false} FromPush(freed: seq<Id>, mem0: Mem, flat0: seq<Id>, mem: Mem, cur: seq<Id>,
                                    more: seq<seq<Id>>, n: nat)
    requires From(freed, flat0) && CutBy(mem0, flat0, mem, cur + Flat(more), n) && cur != []
    ensures From([cur[0]] + freed, flat0)
  {
    assert cur[0] in cur + Flat(more);
  }

  lemma {:induction false} CutStarts(mem: Mem, tags: Tags, recs: seq<seq<Id>>, sums: Sums)
    requires Kept(mem, tags, recs, sums)
    ensures recs == [] ==> Cutting(mem, recs, mem, tags, [], [], [], sums, 0, 0)
    ensures recs != [] ==> recs[0] != [] && recs[0][0] in tags && tags[recs[0][0]].pkt == Lead(recs[1..], 0, None)
                           && Cutting(mem, recs, mem, tags, recs[0], recs[1..], [], sums, 0, 1)
  {
    hide CutState, CutBy, Flat, Kept;
    if recs == [] {
      NoneStart(mem, tags, sums);
      CutByStart(mem, Flat(recs), []);
    } else {
      DropStarts(mem, tags, recs, sums);
      FlatFirst(recs);
      CutByStart(mem, Flat(recs), recs[0] + Flat(recs[1..]));
    }
  }

  lemma {:induction false} NoneStart(mem: Mem, tags: Tags, sums: Sums)
    requires Kept(mem, tags, [], sums)
    ensures CutState(mem, tags, [], [], [], sums) && Flat([]) == [] && [] + Flat([]) == []
  {
    NothingLinked(mem, None);
  }

  lemma {:induction false} FlatFirst(recs: seq<seq<Id>>)
    requires recs != []
    ensures recs[0] + Flat(recs[1..]) == Flat(recs)
  {
  }

  lemma {:induction false} CutByStart(mem: Mem, flat: seq<Id>, rest: seq<Id>)
    requires rest == flat
    ensures CutBy(mem, flat, mem, rest, 0)
  {
    UntouchedSelf(mem);
    UntouchedWiden(mem, mem, {}, Members(flat));
    hide ChainBytes, Untouched;
  }

  lemma {:induction false} CutOn(mem0: Mem, flat0: seq<Id>, mem: Mem, mem': Mem, cur: seq<Id>, more: seq<seq<Id>>,
                                 n: nat)
    requires CutBy(mem0, flat0, mem, cur + Flat(more), n) && cur != [] && Ok(mem) && cur[0] in mem.mbufs
    requires Untouched(mem, mem', {cur[0]})
    requires ChainBytes(mem', cur[1..] + Flat(more)) == ChainBytes(mem, cur[1..] + Flat(more))
    ensures CutBy(mem0, flat0, mem', cur[1..] + Flat(more), n + Len(mem, cur[0]))
  {
    hide Ok, Untouched, Flat, Bytes, ChainBytes;
    ChainLength(mem, [], cur[0]);
    var m, t := cur[0], cur[1..] + Flat(more);
    assert cur + Flat(more) == [m] + t && m in cur + Flat(more);
    BytesConcat(mem, [m], t);
    BytesOne(mem, m);
    DropBoth(ChainBytes(mem0, flat0), n, Bytes(mem, m), ChainBytes(mem, t));
    UntouchedTrans(mem0, mem, mem', Members(flat0), {m});
  }

  lemma {:induction false} DropBoth(s: seq<byte>, n: nat, b: seq<byte>, t: seq<byte>)
    requires n <= |s| && s[n..] == b + t
    ensures n + |b| <= |s| && t == s[n + |b|..]
  {
    assert s[n..][|b|..] == t;
  }

  lemma {:induction false} WithinTail(recs0: seq<seq<Id>>, cur: seq<Id>, more: seq<seq<Id>>, k: nat)
    requires Within(recs0, cur, more, k) && cur != []
    ensures Within(recs0, cur[1..], more, k)
  {
    var c := recs0[k - 1];
    assert c[|c| - |cur|..][1..] == c[|c| - |cur| + 1..];
  }

  lemma {:induction false} WithinNext(recs0: seq<seq<Id>>, more: seq<seq<Id>>, k: nat)
    requires Within(recs0, [], more, k) && more != []
    ensures Within(recs0, more[0], more[1..], k + 1)
  {
    var c := recs0[k];
    assert c[|c| - |c|..] == c;
  }

  /** One mbuf goes whole. */
  method TakeOne(sb: RecordBuf, m: Id, mfree: Option<Id>, empties: bool, ghost mem0: Mem, ghost recs0: seq<seq<Id>>,
                 ghost cur: seq<Id>, ghost more: seq<seq<Id>>, ghost freed: seq<Id>, ghost n: nat, ghost k: nat)
    returns (next: Option<Id>, mfree': Option<Id>, ghost freed': seq<Id>)
    requires Cutting(mem0, recs0, sb.pool.mem, sb.tags, cur, more, freed, sb.sums, n, k) && cur != [] && cur[0] == m
    requires mfree == Head(freed, None)
    modifies sb`sums, sb.pool`mem
    ensures m in old(sb.pool.mem).mbufs
    ensures Cutting(mem0, recs0, sb.pool.mem, sb.tags, cur[1..], more, freed', sb.sums, n + Len(old(sb.pool.mem), m), k)
    ensures next == Head(cur[1..], None) && mfree' == Head(freed', None)
  {
    hide CutState, CutBy, Within, Untouched, ChainBytes, Flat, Ok, From;
    ghost var mem1 := sb.pool.mem;
    FromPush(freed, mem0, Flat(recs0), mem1, cur, more, n);
    FreeTurn(mem1, sb.tags, cur, more, freed, sb.sums);
    LeaveTurn(mem1, sb.tags, cur, more, freed, sb.sums);
    StateOk(mem1, sb.tags, cur, more, freed, sb.sums);
    WithinTail(recs0, cur, more, k);
    UntouchedSelf(mem1);
    UntouchedWiden(mem1, mem1, {}, {m});
    next, mfree', freed' := sb.pool.mem.mbufs[m].next, mfree, freed;
    sb.Sbfree(m);
    if empties || !sb.tags[m].notReady {
      CutOn(mem0, Flat(recs0), mem1, SetNext(mem1, m, mfree), cur, more, n);
      sb.pool.mem := SetNext(sb.pool.mem, m, mfree);
      mfree', freed' := Some(m), [m] + freed;
    } else {
      CutOn(mem0, Flat(recs0), mem1, mem1, cur, more, n);
    }
  }

  lemma {:induction false} StateOk(mem: Mem, tags: Tags, cur: seq<Id>, more: seq<seq<Id>>, freed: seq<Id>, sums: Sums)
    requires CutState(mem, tags, cur, more, freed, sums)
    ensures Ok(mem)
  {
  }

  // ---- sbcut_internal ----

  ghost function Left(cur: seq<Id>, more: seq<seq<Id>>): seq<seq<Id>> { if cur == [] then more else [cur] + more }

  function Leading(tags: Tags, m: Option<Id>, next: Option<Id>): Tags
    requires m.Some? ==> m.value in tags
  {
    if m.Some? then tags[m.value := tags[m.value].(pkt := next)] else tags
  }

  lemma {:induction false} LeftShape(mem: Mem, tags: Tags, cur: seq<Id>, more: seq<seq<Id>>, freed: seq<Id>, sums: Sums)
    requires CutState(mem, tags, cur, more, freed, sums)
    ensures cur != [] ==> cur[0] in tags
    ensures Kept(mem, Leading(tags, Head(cur, None), Lead(more, 0, None)), Left(cur, more), sums)
    ensures Flat(Left(cur, more)) == cur + Flat(more)
  {
    if cur == [] {
      assert [] + Flat(more) == Flat(more);
    } else {
      var tags' := Leading(tags, Some(cur[0]), Lead(more, 0, None));
      assert cur[0] in cur && cur[0] !in Flat(more);
      assert Same(mem.mbufs, tags, mem.mbufs, tags', Flat(more));
      SumTags(mem.mbufs, tags, tags', cur + Flat(more));
      ShapeFrame(mem.mbufs, tags, mem.mbufs, tags', more, None);
      hide Shape, Flat, Sum, Ok;
      ShapeOne(mem.mbufs, tags', cur, Lead(more, 0, None));
      ShapeSplit(mem.mbufs, tags', [cur], more, None);
    }
  }

  lemma {:induction false} LeftTails(recs0: seq<seq<Id>>, cur: seq<Id>, more: seq<seq<Id>>, k: nat, mbtail: Option<Id>,
                                     lastrecord: Option<Id>)
    requires Within(recs0, cur, more, k) && Tails(recs0, mbtail, lastrecord)
    ensures var recs := Left(cur, more);
            recs != [] ==> Tails(recs, mbtail, if |recs| == 1 then Lead(recs, 0, None) else lastrecord)
  {
    var recs := Left(cur, more);
    if recs != [] {
      if more != [] {
        assert recs[|recs| - 1] == recs0[|recs0| - 1];
      } else {
        var c := recs0[k - 1];
        assert k == |recs0| && cur[|cur| - 1] == c[|c| - 1];
      }
    }
  }

  /** A record that has another behind it leads to it. */
  lemma {:induction false} OneLeft(mem: Mem, tags: Tags, recs: seq<seq<Id>>, sums: Sums)
    requires Kept(mem, tags, recs, sums) && recs != []
    ensures recs[0] != [] && recs[0][0] in tags && (tags[recs[0][0]].pkt == None <==> |recs| == 1)
  {
    assert Row(mem.mbufs, tags, recs[0], Lead(recs, 1, None));
    if |recs| > 1 { assert Row(mem.mbufs, tags, recs[1], Lead(recs, 2, None)); }
  }

  lemma {:induction false} BytesLeft(mem0: Mem, recs0: seq<seq<Id>>, mem: Mem, cur: seq<Id>, more: seq<seq<Id>>, n: nat,
                                     len: nat)
    requires CutBy(mem0, Flat(recs0), mem, cur + Flat(more), n) && n + len <= |ChainBytes(mem0, Flat(recs0))| && len > 0
    requires cur == []
    ensures more != []
  {
    NoBytes(mem);
    assert more == [] ==> cur + Flat(more) == [];
  }

  /** The mbufs that go whole, up to the one in which the cut ends. */
  method CutWhole(sb: RecordBuf, len0: nat, ghost recs0: seq<seq<Id>>)
    returns (m: Option<Id>, next: Option<Id>, mfree: Option<Id>, ghost cur: seq<Id>, ghost more: seq<seq<Id>>,
             ghost freed: seq<Id>, ghost k: nat)
    requires sb.Valid() && len0 <= |sb.Contents()| && recs0 == sb.recs
    modifies sb`sums, sb.pool`mem
    ensures Cutting(old(sb.pool.mem), recs0, sb.pool.mem, sb.tags, cur, more, freed, sb.sums, len0, k)
    ensures m == Head(cur, None) && next == Lead(more, 0, None) && mfree == Head(freed, None) && (recs0 != [] ==> k > 0)
  {
    hide Cutting, Flat, Ok, ChainBytes, Kept;
    ghost var mem0 := sb.pool.mem;
    CutStarts(mem0, sb.tags, recs0, sb.sums);
    m, mfree, freed := sb.mb, None, [];
    cur, more, k := [], [], 0;
    if recs0 != [] { cur, more, k := recs0[0], recs0[1..], 1; }
    next := if m.Some? then sb.tags[m.value].pkt else None;
    var len: nat := len0;
    while len > 0
      invariant len <= len0 && Cutting(mem0, recs0, sb.pool.mem, sb.tags, cur, more, freed, sb.sums, len0 - len, k)
      invariant m == Head(cur, None) && next == Lead(more, 0, None) && mfree == Head(freed, None)
      invariant (recs0 != [] ==> k > 0)
      decreases |more|, |cur|, len
    {
      if m.None? {
        StepOver(mem0, recs0, sb.pool.mem, sb.tags, more, freed, sb.sums, len0 - len, k, len);
        m, cur, more, k := next, more[0], more[1..], k + 1;
        next := sb.tags[m.value].pkt;
      }
      var full;
      full, len, m, mfree, freed := CutOne(sb, m.value, mfree, len, len0, mem0, recs0, cur, more, freed, k);
      if full { cur := cur[1..]; }
    }
  }

  lemma {:induction false} StepOver(mem0: Mem, recs0: seq<seq<Id>>, mem: Mem, tags: Tags, more: seq<seq<Id>>,
                                    freed: seq<Id>, sums: Sums, n: nat, k: nat, len: nat)
    requires Cutting(mem0, recs0, mem, tags, [], more, freed, sums, n, k) && n + len <= |ChainBytes(mem0, Flat(recs0))|
    requires len > 0
    ensures more != [] && more[0] != [] && more[0][0] in tags && tags[more[0][0]].pkt == Lead(more[1..], 0, None)
    ensures Cutting(mem0, recs0, mem, tags, more[0], more[1..], freed, sums, n, k + 1)
  {
    BytesLeft(mem0, recs0, mem, [], more, n, len);
    NextTurn(mem, tags, more, freed, sums);
    hide CutState, CutBy;
    WithinNext(recs0, more, k);
  }

  /** One turn: the mbuf goes whole, or its front does and that was all. */
  method CutOne(sb: RecordBuf, m: Id, mfree: Option<Id>, len: nat, ghost len0: nat, ghost mem0: Mem,
                ghost recs0: seq<seq<Id>>,
                ghost cur: seq<Id>, ghost more: seq<seq<Id>>, ghost freed: seq<Id>, ghost k: nat)
    returns (full: bool, left: nat, next: Option<Id>, mfree': Option<Id>, ghost freed': seq<Id>)
    requires 0 < len <= len0 && Cutting(mem0, recs0, sb.pool.mem, sb.tags, cur, more, freed, sb.sums, len0 - len, k)
    requires cur != [] && cur[0] == m && mfree == Head(freed, None)
    modifies sb`sums, sb.pool`mem
    ensures left <= len && mfree' == Head(freed', None) && (!full ==> left == 0)
    ensures Cutting(mem0, recs0, sb.pool.mem, sb.tags, if full then cur[1..] else cur, more, freed', sb.sums,
                    len0 - left, k)
    ensures next == Head(if full then cur[1..] else cur, None)
  {
    hide Cutting, TrimFront;
    ghost var mem1 := sb.pool.mem;
    HeadThere(mem0, recs0, mem1, sb.tags, cur, more, freed, sb.sums, len0 - len, k);
    if sb.pool.mem.mbufs[m].len > len {
      CutPart(mem0, recs0, mem1, sb.tags, cur, more, freed, sb.sums, len0 - len, k, len);
      sb.pool.mem := TrimFront(sb.pool.mem, m, len);
      sb.sums := Sums(sb.sums.len - len, if sb.tags[m].kind.Other? then sb.sums.ctl - len else sb.sums.ctl,
                      sb.sums.cnt);
      full, left, next, mfree', freed' := false, 0, Some(m), mfree, freed;
    } else {
      left := len - sb.pool.mem.mbufs[m].len;
      full := true;
      next, mfree', freed' := TakeOne(sb, m, mfree, false, mem0, recs0, cur, more, freed, len0 - len, k);
    }
  }

  lemma {:induction false} HeadThere(mem0: Mem, recs0: seq<seq<Id>>, mem: Mem, tags: Tags, cur: seq<Id>,
                                     more: seq<seq<Id>>, freed: seq<Id>, sums: Sums, n: nat, k: nat)
    requires Cutting(mem0, recs0, mem, tags, cur, more, freed, sums, n, k) && cur != []
    ensures cur[0] in mem.mbufs && cur[0] in tags
  {
    CurTail(mem.mbufs, tags, cur, more);
  }

  lemma {:induction false} CutPart(mem0: Mem, recs0: seq<seq<Id>>, mem: Mem, tags: Tags, cur: seq<Id>,
                                   more: seq<seq<Id>>, freed: seq<Id>, sums: Sums, n: nat, k: nat, len: nat)
    requires Cutting(mem0, recs0, mem, tags, cur, more, freed, sums, n, k) && cur != [] && cur[0] in mem.mbufs
    requires cur[0] in tags
    requires len <= mem.mbufs[cur[0]].len
    ensures Cutting(mem0, recs0, TrimFront(mem, cur[0], len), tags, cur, more, freed,
                    Sums(sums.len - len, if tags[cur[0]].kind.Other? then sums.ctl - len else sums.ctl,
                         sums.cnt), n + len, k)
  {
    hide CutState, Within, Untouched, ChainBytes, Flat, TrimFront;
    TrimTurn(mem, tags, cur, more, freed, sums, len);
    assert cur[0] in cur + Flat(more);
    UntouchedTrans(mem0, mem, TrimFront(mem, cur[0], len), Members(Flat(recs0)), {cur[0]});
  }

  /** Empty mbufs at the new front go as well. */
  method CutEmpties(sb: RecordBuf, m0: Option<Id>, mfree0: Option<Id>, ghost mem0: Mem, ghost recs0: seq<seq<Id>>,
                    ghost cur0: seq<Id>, ghost more: seq<seq<Id>>, ghost freed0: seq<Id>, ghost n: nat, ghost k: nat)
    returns (m: Option<Id>, mfree: Option<Id>, ghost cur: seq<Id>, ghost freed: seq<Id>)
    requires Cutting(mem0, recs0, sb.pool.mem, sb.tags, cur0, more, freed0, sb.sums, n, k) && m0 == Head(cur0, None)
    requires mfree0 == Head(freed0, None)
    modifies sb`sums, sb.pool`mem
    ensures Cutting(mem0, recs0, sb.pool.mem, sb.tags, cur, more, freed, sb.sums, n, k) && m == Head(cur, None)
    ensures mfree == Head(freed, None)
    ensures cur != [] ==> Len(sb.pool.mem, cur[0]) > 0
  {
    hide Cutting;
    m, mfree, cur, freed := m0, mfree0, cur0, freed0;
    while m.Some? && Len(sb.pool.mem, m.value) == 0
      invariant Cutting(mem0, recs0, sb.pool.mem, sb.tags, cur, more, freed, sb.sums, n, k) && m == Head(cur, None)
      invariant mfree == Head(freed, None)
      decreases |cur|
    {
      m, mfree, freed := TakeOne(sb, m.value, mfree, true, mem0, recs0, cur, more, freed, n, k);
      cur := cur[1..];
    }
  }

  /** sbcut_internal: len bytes off the front, over as many records as it takes. What is left are the
      records from k on and, in front of them, the end of record k - 1 if that was cut inside. */
  method Cut(sb: RecordBuf, len: nat)
    returns (mfree: Option<Id>, ghost freed: seq<Id>, ghost cur: seq<Id>, ghost k: nat)
    requires sb.Valid() && len <= |sb.Contents()|
    modifies sb`tags, sb`sums, sb`mb, sb`mbtail, sb`lastrecord, sb`recs, sb.pool`mem
    ensures sb.Valid() && sb.Contents() == old(sb.Contents())[len..]
    ensures Untouched(old(sb.pool.mem), sb.pool.mem, Members(old(Flat(sb.recs))))
    ensures LinkedTo(sb.pool.mem.mbufs, freed, None) && mfree == Head(freed, None) && Apart(freed, Flat(sb.recs))
    ensures k <= |old(sb.recs)| && Within(old(sb.recs), cur, old(sb.recs)[k..], k)
    ensures sb.recs == Left(cur, old(sb.recs)[k..])
    ensures old(sb.recs) != [] && len == |old(sb.Contents())| ==> |sb.recs| < |old(sb.recs)|
    ensures From(freed, old(Flat(sb.recs))) && From(Flat(sb.recs), old(Flat(sb.recs)))
  {
    hide Cutting, Flat, Ok, ChainBytes, Kept, Tails, Left, Leading, Within, Untouched, LinkedTo;
    ghost var mem0, recs0, more := sb.pool.mem, sb.recs, [];
    var m, next;
    m, next, mfree, cur, more, freed, k := CutWhole(sb, len, recs0);
    m, mfree, cur, freed := CutEmpties(sb, m, mfree, mem0, recs0, cur, more, freed, len, k);
    CutEnds(mem0, recs0, sb.pool.mem, sb.tags, cur, more, freed, sb.sums, len, k, sb.mbtail, sb.lastrecord);
    sb.tags := Leading(sb.tags, m, next);
    sb.recs := Left(cur, more);
    sb.mb := if m.Some? then m else next;
    if sb.mb.None? {
      sb.mbtail, sb.lastrecord := None, None;
    } else if sb.tags[sb.mb.value].pkt.None? {
      sb.lastrecord := sb.mb;
    }
  }

  /** Records, pointers and sums after the cut. */
  lemma {:induction false} CutEnds(mem0: Mem, recs0: seq<seq<Id>>, mem: Mem, tags: Tags, cur: seq<Id>,
                                   more: seq<seq<Id>>, freed: seq<Id>,
                                   sums: Sums, n: nat, k: nat, mbtail: Option<Id>, lastrecord: Option<Id>)
    requires Cutting(mem0, recs0, mem, tags, cur, more, freed, sums, n, k) && Tails(recs0, mbtail, lastrecord)
    requires cur != [] ==> Len(mem, cur[0]) > 0
    ensures cur != [] ==> cur[0] in tags
    ensures var recs := Left(cur, more); var tags' := Leading(tags, Head(cur, None), Lead(more, 0, None));
            && Kept(mem, tags', recs, sums)
            && Lead(recs, 0, None) == (if cur == [] then Lead(more, 0, None) else Some(cur[0]))
            && (recs == [] ==> Tails(recs, None, None)) && (recs != [] ==> CutTails(tags', recs, mbtail, lastrecord))
            && n <= |ChainBytes(mem0, Flat(recs0))| && ChainBytes(mem, Flat(recs)) == ChainBytes(mem0, Flat(recs0))[n..]
            && LinkedTo(mem.mbufs, freed, None) && Apart(freed, Flat(recs))
            && Untouched(mem0, mem, Members(Flat(recs0)))
            && k <= |recs0| && more == recs0[k..] && Within(recs0, cur, more, k) && From(freed, Flat(recs0))
            && From(Flat(recs), Flat(recs0))
            && (recs0 != [] && n == |ChainBytes(mem0, Flat(recs0))| && k > 0 ==> |recs| < |recs0|)
  {
    hide CutState, Kept, ChainBytes, Flat, Leading, Within, CutTails, LinkedTo, Untouched, Tails;
    LeftShape(mem, tags, cur, more, freed, sums);
    LeftPointers(recs0, mem, tags, cur, more, freed, sums, k, mbtail, lastrecord);
    CutParts(mem, tags, cur, more, freed, sums);
    FewerLeft(mem0, recs0, mem, tags, cur, more, freed, sums, n, k);
  }

  lemma {:induction false} CutParts(mem: Mem, tags: Tags, cur: seq<Id>, more: seq<seq<Id>>, freed: seq<Id>, sums: Sums)
    requires CutState(mem, tags, cur, more, freed, sums)
    ensures LinkedTo(mem.mbufs, freed, None) && Apart(freed, cur + Flat(more)) && Ok(mem)
  {
  }

  lemma {:induction false} LeftPointers(recs0: seq<seq<Id>>, mem: Mem, tags: Tags, cur: seq<Id>, more: seq<seq<Id>>,
                                        freed: seq<Id>, sums: Sums, k: nat, mbtail: Option<Id>, lastrecord: Option<Id>)
    requires CutState(mem, tags, cur, more, freed, sums) && Within(recs0, cur, more, k)
    requires Tails(recs0, mbtail, lastrecord)
    ensures cur != [] ==> cur[0] in tags
    ensures var recs := Left(cur, more); var tags' := Leading(tags, Head(cur, None), Lead(more, 0, None));
            && Lead(recs, 0, None) == (if cur == [] then Lead(more, 0, None) else Some(cur[0]))
            && (recs == [] ==> Tails(recs, None, None)) && (recs != [] ==> CutTails(tags', recs, mbtail, lastrecord))
            && k <= |recs0| && more == recs0[k..]
  {
    LeftShape(mem, tags, cur, more, freed, sums);
    LeftTails(recs0, cur, more, k, mbtail, lastrecord);
    hide CutState, Kept, Leading;
    var recs, tags' := Left(cur, more), Leading(tags, Head(cur, None), Lead(more, 0, None));
    if recs != [] { OneLeft(mem, tags', recs, sums); }
  }

  /** A cut of everything takes a record at least. */
  lemma {:induction false} FewerLeft(mem0: Mem, recs0: seq<seq<Id>>, mem: Mem, tags: Tags, cur: seq<Id>,
                                     more: seq<seq<Id>>, freed: seq<Id>, sums: Sums, n: nat, k: nat)
    requires Cutting(mem0, recs0, mem, tags, cur, more, freed, sums, n, k) && (cur != [] ==> Len(mem, cur[0]) > 0)
    ensures recs0 != [] && n == |ChainBytes(mem0, Flat(recs0))| && k > 0 ==> |Left(cur, more)| < |recs0|
  {
    if cur != [] {
      CurTail(mem.mbufs, tags, cur, more);
      NothingLeft(mem, cur, more);
    }
    hide CutState, ChainBytes, Flat;
  }

  /** The pointers that sbcut_internal sets right hold. */
  ghost predicate CutTails(tags: Tags, recs: seq<seq<Id>>, mbtail: Option<Id>, lastrecord: Option<Id>)
    requires recs != []
  {
    recs[0] != [] && recs[0][0] in tags
    && Tails(recs, mbtail, if tags[recs[0][0]].pkt == None then Some(recs[0][0]) else lastrecord)
  }

  lemma {:induction false} NothingLeft(mem: Mem, cur: seq<Id>, more: seq<seq<Id>>)
    requires Ok(mem) && cur != [] && cur[0] in mem.mbufs && Len(mem, cur[0]) > 0
    ensures |ChainBytes(mem, cur + Flat(more))| > 0
  {
    ChainLength(mem, [], cur[0]);
    assert (cur + Flat(more))[0] == cur[0];
  }

  // ---- sbdroprecord_locked ----

  /** The first record goes, and its mbufs are released. */
  method DropRecord(sb: RecordBuf)
    requires sb.Valid()
    modifies sb`sums, sb`mb, sb`mbtail, sb`lastrecord, sb`recs, sb.pool`mem
    ensures sb.Valid() && sb.recs == (if old(sb.recs) == [] then [] else old(sb.recs)[1..])
    ensures old(sb.recs) != [] ==> Untouched(old(sb.pool.mem), sb.pool.mem, Members(old(sb.recs)[0]))
                                   && sb.Contents() == ChainBytes(old(sb.pool.mem), Flat(old(sb.recs)[1..]))
  {
    hide Kept, Flat, Ok, ChainBytes, Untouched, CutState;
    ghost var recs0, mem0 := sb.recs, sb.pool.mem;
    if sb.mb.Some? {
      SomeRecord(recs0);
      ghost var more := recs0[1..];
      DropStarts(mem0, sb.tags, recs0, sb.sums);
      var m := sb.mb;
      sb.mb := sb.tags[m.value].pkt;
      ReleaseAll(sb, m, recs0[0], more);
      DropEnds(sb.pool.mem, sb.tags, more, sb.sums);
      if more != [] { OneLeft(sb.pool.mem, sb.tags, more, sb.sums); }
      DropTails(recs0, sb.mbtail, sb.lastrecord);
      sb.recs := more;
    } else {
      NoneThere(mem0, sb.tags, recs0, sb.sums);
    }
    if sb.mb.None? { sb.mbtail, sb.lastrecord := None, None; }
  }

  lemma {:induction false} SomeRecord(recs: seq<seq<Id>>)
    requires Lead(recs, 0, None).Some?
    ensures recs != [] && recs[0] != []
  {
  }

  lemma {:induction false} NoneThere(mem: Mem, tags: Tags, recs: seq<seq<Id>>, sums: Sums)
    requires Kept(mem, tags, recs, sums) && Lead(recs, 0, None).None?
    ensures recs == []
  {
    if recs != [] { OneLeft(mem, tags, recs, sums); }
  }

  lemma {:induction false} DropStarts(mem: Mem, tags: Tags, recs: seq<seq<Id>>, sums: Sums)
    requires Kept(mem, tags, recs, sums) && recs != []
    ensures recs[0] != [] && recs[0][0] in tags && tags[recs[0][0]].pkt == Lead(recs[1..], 0, None)
    ensures CutState(mem, tags, recs[0], recs[1..], [], sums)
  {
    NothingLinked(mem, None);
    assert [] + Flat(recs) == Flat(recs);
    assert CutState(mem, tags, [], recs, [], sums);
    hide CutState;
    NextTurn(mem, tags, recs, [], sums);
  }

  lemma {:induction false} DropEnds(mem: Mem, tags: Tags, more: seq<seq<Id>>, sums: Sums)
    requires CutState(mem, tags, [], more, [], sums)
    ensures Kept(mem, tags, more, sums)
  {
    assert [] + Flat(more) == Flat(more);
  }

  lemma {:induction false} DropTails(recs: seq<seq<Id>>, mbtail: Option<Id>, lastrecord: Option<Id>)
    requires recs != [] && Tails(recs, mbtail, lastrecord)
    ensures if |recs| == 1 then Tails(recs[1..], None, None) else Tails(recs[1..], mbtail, lastrecord)
    ensures |recs| > 1 && recs[1] != [] ==> Lead(recs[1..], 0, None).Some?
  {
  }

  /** Each mbuf leaves the accounts and is released. */
  method ReleaseAll(sb: RecordBuf, m0: Option<Id>, ghost c: seq<Id>, ghost more: seq<seq<Id>>)
    requires CutState(sb.pool.mem, sb.tags, c, more, [], sb.sums) && m0 == Head(c, None)
    modifies sb`sums, sb.pool`mem
    ensures CutState(sb.pool.mem, sb.tags, [], more, [], sb.sums)
    ensures Untouched(old(sb.pool.mem), sb.pool.mem, Members(c))
    ensures ChainBytes(sb.pool.mem, Flat(more)) == ChainBytes(old(sb.pool.mem), Flat(more))
  {
    hide CutState, Flat, ChainBytes, Untouched, FreeOne;
    var m := m0;
    ghost var mem0, rest := sb.pool.mem, c;
    UntouchedSelf(mem0);
    UntouchedWiden(mem0, mem0, {}, Members(c));
    while m.Some?
      invariant CutState(sb.pool.mem, sb.tags, rest, more, [], sb.sums) && m == Head(rest, None)
      invariant (forall x :: x in rest ==> x in c)
      invariant Untouched(mem0, sb.pool.mem, Members(c))
      invariant ChainBytes(sb.pool.mem, Flat(more)) == ChainBytes(mem0, Flat(more))
      decreases |rest|
    {
      ghost var mem1 := sb.pool.mem;
      ReleaseTurn(mem1, sb.tags, rest, more, sb.sums);
      UntouchedTrans(mem0, mem1, FreeOne(mem1, m.value), Members(c), {m.value});
      sb.Sbfree(m.value);
      var next := sb.pool.mem.mbufs[m.value].next;
      sb.pool.mem := FreeOne(sb.pool.mem, m.value);
      m := next;
      rest := rest[1..];
    }
  }

  lemma {:induction false} ReleaseTurn(mem: Mem, tags: Tags, cur: seq<Id>, more: seq<seq<Id>>, sums: Sums)
    requires CutState(mem, tags, cur, more, [], sums) && cur != []
    ensures cur[0] in mem.mbufs && cur[0] in tags && mem.mbufs[cur[0]].next == Head(cur[1..], None)
    ensures forall x :: x in cur[1..] ==> x in cur
    ensures var mem' := FreeOne(mem, cur[0]);
            && CutState(mem', tags, cur[1..], more, [], Minus(sums, Weight(mem.mbufs, tags, cur[0])))
            && Untouched(mem, mem', {cur[0]})
            && ChainBytes(mem', Flat(more)) == ChainBytes(mem, Flat(more))
  {
    hide Ok, LinkedTo, Untouched, ChainBytes, Shape, Flat, Sum, Weight, FreeOne;
    CurTail(mem.mbufs, tags, cur, more);
    FreeAny(mem, cur[0]);
    NothingLinked(FreeOne(mem, cur[0]), None);
    TakeTurn(mem, FreeOne(mem, cur[0]), tags, cur, more, [], [], sums);
    MoreFrame(mem, FreeOne(mem, cur[0]), tags, more, cur[0]);
  }

  // ---- sbflush_locked ----

  /** Everything goes, record after record, and every field is back to empty. */
  method Flush(sb: RecordBuf)
    requires sb.Valid()
    modifies sb`tags, sb`sums, sb`mb, sb`mbtail, sb`lastrecord, sb`recs, sb.pool`mem
    ensures sb.Valid() && sb.recs == [] && sb.mb == None && sb.mbtail == None && sb.lastrecord == None
    ensures sb.sums == Sums(0, 0, 0)
    ensures Untouched(old(sb.pool.mem), sb.pool.mem, Members(old(Flat(sb.recs))))
  {
    hide Kept, Flat, Ok, ChainBytes, Untouched;
    ghost var mem0, flat0 := sb.pool.mem, Flat(sb.recs);
    UntouchedSelf(mem0);
    UntouchedWiden(mem0, mem0, {}, Members(flat0));
    while sb.sums.cnt != 0
      invariant sb.Valid() && Untouched(mem0, sb.pool.mem, Members(flat0)) && From(Flat(sb.recs), flat0)
      decreases |sb.recs|
    {
      CanFlush(sb.pool.mem, sb.tags, sb.recs, sb.sums);
      if sb.sums.len == 0 && (sb.mb.None? || Len(sb.pool.mem, sb.mb.value) != 0) { break; }
      FlushOnce(sb, mem0, flat0);
    }
    AllGone(sb.pool.mem, sb.tags, sb.recs, sb.sums);
  }

  /** One cut of all there is, and the release of what it took off. */
  method FlushOnce(sb: RecordBuf, ghost mem0: Mem, ghost flat0: seq<Id>)
    requires sb.Valid() && sb.recs != [] && sb.sums.len == |sb.Contents()|
    requires Untouched(mem0, sb.pool.mem, Members(flat0)) && From(Flat(sb.recs), flat0)
    modifies sb`tags, sb`sums, sb`mb, sb`mbtail, sb`lastrecord, sb`recs, sb.pool`mem
    ensures sb.Valid() && |sb.recs| < |old(sb.recs)| && Untouched(mem0, sb.pool.mem, Members(flat0))
    ensures From(Flat(sb.recs), flat0)
  {
    hide Kept, Flat, Ok, ChainBytes, Untouched, LinkedTo, Within, Left, Tails;
    ghost var mem1, flat1 := sb.pool.mem, Flat(sb.recs);
    var mfree;
    ghost var freed, cur, k;
    mfree, freed, cur, k := Cut(sb, sb.sums.len);
    ghost var mem2 := sb.pool.mem;
    KeptOk(mem2, sb.tags, sb.recs, sb.sums);
    FreeChain(sb.pool, mfree, freed);
    KeptFrame(mem2, sb.pool.mem, sb.tags, sb.recs, sb.sums, Members(freed));
    UntouchedTrans(mem0, mem1, mem2, Members(flat0), Members(flat1));
    UntouchedTrans(mem0, mem2, sb.pool.mem, Members(flat0), Members(freed));
  }

  /** A buffer with mbufs in it can be cut at its full length, and the guard against cutting nothing
      forever does not strike. */
  lemma {:induction false} CanFlush(mem: Mem, tags: Tags, recs: seq<seq<Id>>, sums: Sums)
    requires Kept(mem, tags, recs, sums) && sums.cnt != 0
    ensures recs != [] && recs[0] != [] && sums.len == |ChainBytes(mem, Flat(recs))|
    ensures (sums.len == 0 ==> Len(mem, recs[0][0]) == 0)
  {
    ShapeIn(mem.mbufs, tags, recs, None);
    SumIsPositive(mem.mbufs, tags, Flat(recs));
    forall i | 0 <= i < |Flat(recs)| ensures Flat(recs)[i] in mem.mbufs && Flat(recs)[i] in tags {
      assert Flat(recs)[i] in Flat(recs);
    }
    SumIsLength(mem, tags, Flat(recs));
    if recs == [] { SumNone(mem.mbufs, tags); } else {
      OneLeft(mem, tags, recs, sums);
      assert Flat(recs)[0] == recs[0][0];
    }
  }

  lemma {:induction false} AllGone(mem: Mem, tags: Tags, recs: seq<seq<Id>>, sums: Sums)
    requires Kept(mem, tags, recs, sums) && sums.cnt == 0
    ensures recs == [] && sums == Sums(0, 0, 0)
  {
    ShapeIn(mem.mbufs, tags, recs, None);
    SumIsPositive(mem.mbufs, tags, Flat(recs));
    if recs != [] { OneLeft(mem, tags, recs, sums); }
  }
}

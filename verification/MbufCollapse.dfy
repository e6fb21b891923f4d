/** m_collapse: fewer mbufs, same bytes. */
module MbufCollapse {
  import opened Basics
  import opened MbufMem
  import opened MbufChains
  import opened MbufEdits
  import opened MbufPool
  import opened MbufNeed
  import opened MbufShape

  ghost function Removed(c: seq<Id>, k: nat): (r: seq<Id>)
    requires k < |c|
    ensures |r| == |c| - 1 && forall i :: 0 <= i < k ==> r[i] == c[i]
  {
    c[..k] + c[k + 1..]
  }

  /** mbuf k of a chain takes over its neighbour. */
  lemma {:induction false} FoldStep(mem0: Mem, mem: Mem, c0: seq<Id>, c: seq<Id>, k: nat)
    requires Rearranged(mem0, mem, c0, c) && k + 1 < |c| && Len(mem, c[k + 1]) <= Trailing(mem, c[k])
    ensures AbsorbFits(mem, c[k], c[k + 1])
    ensures Rearranged(mem0, Absorb(mem, c[k], c[k + 1], mem.mbufs[c[k + 1]].next), c0, Removed(c, k + 1))
  {
    hide Ok, Untouched, LinkedTo, ChainBytes, Absorb, AbsorbFits, Bytes, Trailing, Len, Rearranged;
    var p, m, n, q := c[..k], c[k], c[k + 1], c[k + 2..];
    assert c == p + ([m] + ([n] + q)) && Removed(c, k + 1) == p + ([m] + q);
    RearrangedOk(mem0, mem, c0, c);
    ChainAbsorb(mem, p, m, n, q);
    RearrangedTrans(mem0, mem, Absorb(mem, m, n, Head(q, None)), c0, c, Removed(c, k + 1));
  }

  lemma {:induction false} Follow(mem0: Mem, mem: Mem, c0: seq<Id>, c: seq<Id>, k: nat)
    requires Rearranged(mem0, mem, c0, c) && k < |c|
    ensures c[k] in mem.mbufs && mem.mbufs[c[k]].next == if k + 1 < |c| then Some(c[k + 1]) else None
    ensures k + 1 < |c| ==> c[k + 1] in mem.mbufs
  {
  }

  /** mbuf j of the chain can take over its neighbour. */
  ghost predicate CanFold(mem: Mem, c: seq<Id>, j: nat) {
    j + 1 < |c| && Writable(mem, c[j]) && Len(mem, c[j + 1]) < Trailing(mem, c[j])
  }

  /** From mbuf k up to mbuf e, none can. */
  ghost predicate NoFold(mem: Mem, c: seq<Id>, k: nat, e: nat) { forall j :: k <= j < e ==> !CanFold(mem, c, j) }

  /** No two mbufs of the chain share a data area. */
  ghost predicate OwnStores(mem: Mem, c: seq<Id>) {
    && (forall i :: 0 <= i < |c| ==> c[i] in mem.mbufs)
    && forall i, j :: 0 <= i < j < |c| ==> mem.mbufs[c[i]].store != mem.mbufs[c[j]].store
  }

  /** Towards the end of the chain, each mbuf takes over what fits. Nothing changes exactly when none
      can take over anything; the pass is cut short as soon as few enough are left. Otherwise no mbuf it
      has passed can take over its neighbour, unless a release has made it writable. */
  method FoldForward(pool: Pool, m1: Id, frags1: nat, maxfrags: nat, ghost c1: seq<Id>, ghost f1: seq<Frag>,
                     ghost k1: nat)
    returns (done: bool, frags: nat, ghost c: seq<Id>, ghost f: seq<Frag>)
    requires Ok(pool.mem) && LinkedTo(pool.mem.mbufs, c1, None) && k1 < |c1| && c1[k1] == m1 && frags1 == |c1|
    requires Shows(pool.mem, c1, f1)
    modifies pool`mem
    ensures Shows(pool.mem, c, f) && Outcome(f, done) == Fold(f1, k1, maxfrags)
    ensures Rearranged(old(pool.mem), pool.mem, c1, c) && 0 < |c| == frags <= |c1| && c[0] == c1[0]
    ensures |c| == |c1| ==> pool.mem == old(pool.mem) && c == c1
    ensures |c| == |c1| <==> NoFold(old(pool.mem), c1, k1, |c1|)
    ensures done <==> |c| < |c1| && |c| <= maxfrags
    ensures !done && OwnStores(old(pool.mem), c1) ==> NoFold(pool.mem, c, k1, |c|)
  {
    hide Folding, Ok, LinkedTo, Rearranged, NoFold, OwnStores, Shows, Fold;
    f := f1;
    ghost var mem0 := pool.mem;
    FoldStart(mem0, c1, k1);
    var m: Option<Id> := Some(m1);
    done, frags, c := false, frags1, c1;
    ghost var k: nat := k1;
    while m.Some?
      invariant Folding(mem0, pool.mem, c1, c, k1, k, frags) && (m.Some? ==> k < |c| && c[k] == m.value)
      invariant if done then |c| < |c1| && |c| <= maxfrags else |c| < |c1| ==> |c| > maxfrags
      invariant !done && m.None? ==> k + 1 == |c|
      invariant Shows(pool.mem, c, f)
      invariant Fold(f1, k1, maxfrags) == if m.None? then Outcome(f, done) else Fold(f, k, maxfrags)
      decreases |c| - k, m.Some?
    {
      m, done, frags, c, f, k := FoldTurn(pool, m.value, frags, maxfrags, mem0, c1, c, f, k1, k);
      if done { break; }
    }
    FoldEnd(mem0, pool.mem, c1, c, k1, k, frags);
  }

  /** The chain c1 became c of frags mbufs, and mbuf k of it is next; k1 was the first. */
  ghost predicate Folding(mem0: Mem, mem: Mem, c1: seq<Id>, c: seq<Id>, k1: nat, k: nat, frags: nat) {
    && Rearranged(mem0, mem, c1, c) && k1 <= k < |c| == frags <= |c1| && c[0] == c1[0]
    && (if |c| == |c1| then mem == mem0 && c == c1 && NoFold(mem0, c1, k1, k) else !NoFold(mem0, c1, k1, |c1|))
    && (OwnStores(mem0, c1) ==> OwnStores(mem, c) && NoFold(mem, c, k1, k))
  }

  lemma {:induction false} FoldStart(mem: Mem, c: seq<Id>, k: nat)
    requires Ok(mem) && LinkedTo(mem.mbufs, c, None) && k < |c|
    ensures Folding(mem, mem, c, c, k, k, |c|)
  {
    hide Rearranged;
    RearrangedSelf(mem, c);
  }

  lemma {:induction false} FoldEnd(mem0: Mem, mem: Mem, c1: seq<Id>, c: seq<Id>, k1: nat, k: nat, frags: nat)
    requires Folding(mem0, mem, c1, c, k1, k, frags)
    ensures Rearranged(mem0, mem, c1, c) && 0 < |c| == frags <= |c1| && c[0] == c1[0]
    ensures |c| == |c1| ==> mem == mem0 && c == c1
    ensures k + 1 == |c| ==>
              (|c| == |c1| <==> NoFold(mem0, c1, k1, |c1|)) && (OwnStores(mem0, c1) ==> NoFold(mem, c, k1, |c|))
    ensures |c| < |c1| ==> !NoFold(mem0, c1, k1, |c1|)
  {
    hide Rearranged, OwnStores;
  }

  lemma {:induction false} FoldOver(mem0: Mem, mem: Mem, c0: seq<Id>, c1: seq<Id>, k0: nat, k: nat, frags: nat)
    requires Folding(mem0, mem, c0, c1, k0, k, frags) && !CanFold(mem, c1, k) && k + 1 < |c1|
    ensures Folding(mem0, mem, c0, c1, k0, k + 1, frags)
  {
    hide Rearranged, OwnStores, CanFold;
  }

  lemma {:induction false} FoldedHere(mem0: Mem, mem: Mem, c0: seq<Id>, c1: seq<Id>, k0: nat, k: nat, frags: nat)
    requires Folding(mem0, mem, c0, c1, k0, k, frags) && CanFold(mem, c1, k) && AbsorbFits(mem, c1[k], c1[k + 1])
    requires Rearranged(mem0, Absorb(mem, c1[k], c1[k + 1], mem.mbufs[c1[k + 1]].next), c0, Removed(c1, k + 1))
    ensures Folding(mem0, Absorb(mem, c1[k], c1[k + 1], mem.mbufs[c1[k + 1]].next), c0, Removed(c1, k + 1), k0, k,
                    frags - 1)
  {
    hide Rearranged, OwnStores, CanFold, Absorb;
    RemovedAt(c1, k + 1);
    var mem', r := Absorb(mem, c1[k], c1[k + 1], mem.mbufs[c1[k + 1]].next), Removed(c1, k + 1);
    if |c1| == |c0| { assert !NoFold(mem0, c0, k0, |c0|) by { AnyFold(mem0, c0, k0, k); } }
    if OwnStores(mem0, c0) {
      RearrangedOk(mem0, mem, c0, c1);
      OwnFolded(mem, c1, k);
      forall j | k0 <= j < k ensures !CanFold(mem', r, j) { FoldsBefore(mem, c1, k, j); }
    }
  }

  lemma {:induction false} AnyFold(mem: Mem, c: seq<Id>, k0: nat, k: nat)
    requires k0 <= k && CanFold(mem, c, k)
    ensures !NoFold(mem, c, k0, |c|)
  {
  }

  /** The stores of an mbuf that takes over its neighbour, and of all others. */
  lemma {:induction false} AbsorbStores(mem: Mem, m: Id, n: Id, next: Option<Id>, x: Id)
    requires AbsorbFits(mem, m, n) && x in mem.mbufs && x != n && FitsIn(mem.mbufs[x], mem.stores)
    requires mem.mbufs[x].store != mem.mbufs[n].store && mem.mbufs[m].store != mem.mbufs[n].store
    ensures var mem' := Absorb(mem, m, n, next);
            && x in mem'.mbufs && mem'.mbufs[x].store == mem.mbufs[x].store && mem.mbufs[x].store in mem'.stores
            && mem'.stores[mem.mbufs[x].store].refs == mem.stores[mem.mbufs[x].store].refs
            && |mem'.stores[mem.mbufs[x].store].bytes| == |mem.stores[mem.mbufs[x].store].bytes|
            && (x != m ==> mem'.mbufs[x] == mem.mbufs[x])
            && (x == m ==> mem'.mbufs[x].len == mem.mbufs[m].len + |Bytes(mem, n)|)
  {
    hide Bytes;
  }

  lemma {:induction false} StoreKept(mem: Mem, c: seq<Id>, k: nat, j: nat)
    requires Ok(mem) && LinkedTo(mem.mbufs, c, None) && OwnStores(mem, c) && k + 1 < |c|
    requires AbsorbFits(mem, c[k], c[k + 1])
    requires j < |c| && j != k + 1
    ensures var mem' := Absorb(mem, c[k], c[k + 1], mem.mbufs[c[k + 1]].next);
            c[j] in mem'.mbufs && mem'.mbufs[c[j]].store == mem.mbufs[c[j]].store
  {
    hide Absorb, Ok, LinkedTo, Bytes;
    FitsOf(mem, c[j]);
    AbsorbStores(mem, c[k], c[k + 1], mem.mbufs[c[k + 1]].next, c[j]);
  }

  lemma {:induction false} OwnFolded(mem: Mem, c: seq<Id>, k: nat)
    requires Ok(mem) && LinkedTo(mem.mbufs, c, None) && OwnStores(mem, c) && k + 1 < |c|
    requires AbsorbFits(mem, c[k], c[k + 1])
    ensures OwnStores(Absorb(mem, c[k], c[k + 1], mem.mbufs[c[k + 1]].next), Removed(c, k + 1))
  {
    hide Absorb, Ok, LinkedTo, AbsorbFits;
    var r := Removed(c, k + 1);
    assert forall i :: 0 <= i < |r| ==> r[i] == c[if i <= k then i else i + 1];
    forall i | 0 <= i < |r| ensures r[i] in Absorb(mem, c[k], c[k + 1], mem.mbufs[c[k + 1]].next).mbufs {
      StoreKept(mem, c, k, if i <= k then i else i + 1);
    }
    forall i, j | 0 <= i < j < |r|
      ensures var s := Absorb(mem, c[k], c[k + 1], mem.mbufs[c[k + 1]].next).mbufs; s[r[i]].store != s[r[j]].store
    {
      StoreKept(mem, c, k, if i <= k then i else i + 1);
      StoreKept(mem, c, k, if j <= k then j else j + 1);
    }
  }

  lemma {:induction false} FoldsBefore(mem: Mem, c: seq<Id>, k: nat, j: nat)
    requires Ok(mem) && LinkedTo(mem.mbufs, c, None) && OwnStores(mem, c) && j < k && k + 1 < |c|
    requires AbsorbFits(mem, c[k], c[k + 1])
    requires !CanFold(mem, c, j)
    ensures !CanFold(Absorb(mem, c[k], c[k + 1], mem.mbufs[c[k + 1]].next), Removed(c, k + 1), j)
  {
    hide Absorb, AbsorbFits, Ok, LinkedTo, Bytes;
    FitsOf(mem, c[j]);
    FitsOf(mem, c[j + 1]);
    DistinctIds(mem, c, j, k + 1);
    DistinctIds(mem, c, j + 1, k + 1);
    AbsorbStores(mem, c[k], c[k + 1], mem.mbufs[c[k + 1]].next, c[j]);
    AbsorbStores(mem, c[k], c[k + 1], mem.mbufs[c[k + 1]].next, c[j + 1]);
    DistinctIds(mem, c, j, k);
  }

  lemma {:induction false} DistinctIds(mem: Mem, c: seq<Id>, i: nat, j: nat)
    requires LinkedTo(mem.mbufs, c, None) && i < j < |c|
    ensures c[i] != c[j]
  {
  }

  /** One turn: m takes over its neighbour, or the neighbour is next. */
  method FoldTurn(pool: Pool, m: Id, frags1: nat, maxfrags: nat, ghost mem0: Mem, ghost c0: seq<Id>, ghost c1: seq<Id>,
                  ghost f1: seq<Frag>, ghost k0: nat, ghost k1: nat)
    returns (m': Option<Id>, done: bool, frags: nat, ghost c: seq<Id>, ghost f: seq<Frag>, ghost k: nat)
    requires Folding(mem0, pool.mem, c0, c1, k0, k1, frags1) && k1 < |c1| && c1[k1] == m
    requires (|c1| < |c0| ==> |c1| > maxfrags) && Shows(pool.mem, c1, f1)
    modifies pool`mem
    ensures Shows(pool.mem, c, f)
    ensures Fold(f1, k1, maxfrags) == if m'.None? then Outcome(f, done) else Fold(f, k, maxfrags)
    ensures Folding(mem0, pool.mem, c0, c, k0, k, frags) && (m'.Some? ==> k < |c| && c[k] == m'.value)
    ensures m'.None? || |c| - k < |c1| - k1
    ensures |c| - k <= |c1| - k1 && (m'.None? && !done ==> k + 1 == |c|)
    ensures if done then m'.None? && |c| < |c0| && |c| <= maxfrags else |c| < |c0| ==> |c| > maxfrags
  {
    hide Rearranged, Trailing, Writable, Removed, Folding, Absorb, AbsorbFits, Shows, CanTake, Taken, Ok, LinkedTo, Len;
    FoldAt(mem0, pool.mem, c0, c1, k0, k1, frags1);
    RearrangedOk(mem0, pool.mem, c0, c1);
    ShowsLen(pool.mem, c1, f1);
    TakeIs(pool.mem, c1, f1, k1);
    m', done, frags, c, f, k := None, false, frags1, c1, f1, k1;
    var next := pool.mem.mbufs[m].next;
    if next.None? { return; }
    var n := next.value;
    if Writable(pool.mem, m) && Len(pool.mem, n) < Trailing(pool.mem, m) {
      FoldStep(mem0, pool.mem, c0, c1, k1);
      FoldedHere(mem0, pool.mem, c0, c1, k0, k1, frags1);
      FoldShows(pool.mem, c1, f1, k1);
      f := Taken(f1, k1);
      pool.mem := Absorb(pool.mem, m, n, pool.mem.mbufs[n].next);
      c, frags := Removed(c1, k1 + 1), frags1 - 1;
      RemovedAt(c1, k1 + 1);
      done := frags <= maxfrags;
      m' := if done then None else Some(m);
    } else {
      FoldOver(mem0, pool.mem, c0, c1, k0, k1, frags1);
      m', k := Some(n), k1 + 1;
    }
  }

  lemma {:induction false} ShowsLen(mem: Mem, c: seq<Id>, f: seq<Frag>)
    requires Shows(mem, c, f)
    ensures |f| == |c|
  {
  }

  /** Whether it can, the fragments say. */
  lemma {:induction false} TakeIs(mem: Mem, c: seq<Id>, f: seq<Frag>, k: nat)
    requires Ok(mem) && LinkedTo(mem.mbufs, c, None) && Shows(mem, c, f) && k < |c|
    ensures CanFold(mem, c, k) <==> CanTake(f, k)
  {
    assert forall j :: 0 <= j < |c| && j != k ==> c[j] != c[k];
    hide Ok, LinkedTo, Single, Writable, Trailing;
    WritableIs(mem, c, f, k);
    if k + 1 < |c| { assert ShowsAt(mem, c, c[k + 1], f[k + 1]); }
  }

  lemma {:induction false} FoldShows(mem: Mem, c: seq<Id>, f: seq<Frag>, k: nat)
    requires Ok(mem) && LinkedTo(mem.mbufs, c, None) && Shows(mem, c, f) && CanFold(mem, c, k) && CanTake(f, k)
    requires AbsorbFits(mem, c[k], c[k + 1])
    ensures Shows(Absorb(mem, c[k], c[k + 1], mem.mbufs[c[k + 1]].next), Removed(c, k + 1), Taken(f, k))
  {
    assert forall i, j :: 0 <= i < j < |c| ==> c[i] != c[j];
    hide Ok, LinkedTo, Shows, Absorb, CanTake, Taken, Merged, Trailing, Writable;
    AbsorbMerged(mem, c[k], c[k + 1], mem.mbufs[c[k + 1]].next);
    ShowsTake(mem, Absorb(mem, c[k], c[k + 1], mem.mbufs[c[k + 1]].next), c, f, k);
    assert Removed(c, k + 1) == c[..k + 1] + c[k + 2..];
  }

  lemma {:induction false} FoldAt(mem0: Mem, mem: Mem, c0: seq<Id>, c: seq<Id>, k0: nat, k: nat, frags: nat)
    requires Folding(mem0, mem, c0, c, k0, k, frags)
    ensures Rearranged(mem0, mem, c0, c) && k < |c| == frags <= |c0| && c[k] in mem.mbufs
    ensures mem.mbufs[c[k]].next == (if k + 1 < |c| then Some(c[k + 1]) else None)
    ensures (k + 1 < |c| ==> c[k + 1] in mem.mbufs)
  {
    hide Rearranged, OwnStores, NoFold;
    Follow(mem0, mem, c0, c, k);
  }

  lemma {:induction false} RemovedAt(c: seq<Id>, j: nat)
    requires 0 < j < |c|
    ensures |Removed(c, j)| == |c| - 1 && Removed(c, j)[j - 1] == c[j - 1] && Removed(c, j)[0] == c[0]
  {
  }

  // ---- Two mbufs into a cluster ----

  /** Put the new mbuf i, holding what mbufs k + 1 and k + 2 hold, in their place. */
  lemma {:induction false} PairReplaced(mem0: Mem, mem1: Mem, mem: Mem, c0: seq<Id>, c: seq<Id>, k: nat, i: Id)
    requires Rearranged(mem0, mem1, c0, c) && k + 2 < |c|
    requires NewWith(mem1, mem, i, Bytes(mem1, c[k + 1]) + Bytes(mem1, c[k + 2]))
    ensures i in mem.mbufs && c[k] in mem.mbufs && c[k] != i
    ensures var q := c[k + 3..];
            var mem2 := SetNext(SetNext(mem, i, Head(q, None)), c[k], Some(i));
            Rearranged(mem0, FreeOne(FreeOne(mem2, c[k + 1]), c[k + 2]), c0, c[..k + 1] + ([i] + q))
  {
    hide Ok, Untouched, LinkedTo, ChainBytes, Bytes, FreeOne, Rearranged, Replace, NewWith, SetNext;
    var p, n, n2, q := c[..k + 1], c[k + 1], c[k + 2], c[k + 3..];
    PairThere(mem0, mem1, mem, c0, c, k, i);
    assert c == p + (([n] + [n2]) + q);
    PairNew(mem1, mem, p, n, n2, q, i);
    PairIs(mem, p, n, n2, q, i);
    RearrangedTrans(mem0, mem1, Replace(mem, p, [n] + [n2], q, [i]), c0, c, p + ([i] + q));
  }

  lemma {:induction false} PairThere(mem0: Mem, mem1: Mem, mem: Mem, c0: seq<Id>, c: seq<Id>, k: nat, i: Id)
    requires Rearranged(mem0, mem1, c0, c) && k + 2 < |c|
    requires NewWith(mem1, mem, i, Bytes(mem1, c[k + 1]) + Bytes(mem1, c[k + 2]))
    ensures Ok(mem1) && LinkedTo(mem1.mbufs, c, None) && i in mem.mbufs && c[k] in mem.mbufs && c[k] != i
  {
    Follow(mem0, mem1, c0, c, k);
    UntouchedAt(mem1, mem, {}, c[k]);
  }

  /** The new mbuf takes the place of the two. */
  lemma {:induction false} PairNew(mem1: Mem, mem: Mem, p: seq<Id>, n: Id, n2: Id, q: seq<Id>, i: Id)
    requires Ok(mem1) && LinkedTo(mem1.mbufs, p + (([n] + [n2]) + q), None)
    requires NewWith(mem1, mem, i, Bytes(mem1, n) + Bytes(mem1, n2))
    ensures i in mem.mbufs && (p != [] ==> p[|p| - 1] in mem.mbufs)
    ensures Rearranged(mem1, Replace(mem, p, [n] + [n2], q, [i]), p + (([n] + [n2]) + q), p + ([i] + q))
  {
    assert Ok(mem) && Untouched(mem1, mem, {}) && AllNew([i], mem1) && Live(mem) == Live(mem1) + Members([i]);
    hide Ok, Untouched, LinkedTo, ChainBytes, Bytes, Replace, Rearranged;
    BytesConcat(mem1, [n], [n2]);
    BytesOne(mem1, n);
    BytesOne(mem1, n2);
    BytesOne(mem, i);
    Alone(mem.mbufs, i);
    ReplaceNew(mem1, mem, p, [n] + [n2], q, [i], None);
  }

  lemma {:induction false} PairIs(mem: Mem, p: seq<Id>, n: Id, n2: Id, q: seq<Id>, i: Id)
    requires p != [] && i in mem.mbufs && p[|p| - 1] in mem.mbufs && p[|p| - 1] != i
    ensures Replace(mem, p, [n] + [n2], q, [i])
         == FreeOne(FreeOne(SetNext(SetNext(mem, i, Head(q, None)), p[|p| - 1], Some(i)), n), n2)
  {
    hide FreeOne, FreeAll;
    FreeTwo(SetNext(SetNext(mem, i, Head(q, None)), p[|p| - 1], Some(i)), n, n2);
  }

  lemma {:induction false} FreeTwo(mem: Mem, n: Id, n2: Id)
    ensures FreeAll(mem, [n] + [n2]) == FreeOne(FreeOne(mem, n), n2)
  {
    hide FreeOne;
    var c := [n] + [n2];
    assert c[0] == n && c[1..] == [n2];
    assert FreeAll(mem, c) == FreeAll(FreeOne(mem, n), [n2]);
    assert [n2][1..] == [];
    assert FreeAll(FreeOne(mem, n), [n2]) == FreeAll(FreeOne(FreeOne(mem, n), n2), []);
  }

  /** Of the first k mbufs behind the first, no two neighbours fit into a cluster together. */
  ghost predicate NoPair(mem: Mem, c: seq<Id>, k: nat) {
    forall j :: 0 < j < k - 1 && j < |c| - 1 ==> Len(mem, c[j]) + Len(mem, c[j + 1]) >= MCLBYTES
  }

  /** The first mbuf after which two neighbours fit into one cluster. */
  method FindPair(pool: Pool, m0: Id, ghost c: seq<Id>) returns (prev: Option<Id>, ghost k: nat)
    requires Ok(pool.mem) && c != [] && c[0] == m0 && LinkedTo(pool.mem.mbufs, c, None)
    ensures prev.Some? ==> k + 2 < |c| && c[k] == prev.value
                           && Len(pool.mem, c[k + 1]) + Len(pool.mem, c[k + 2]) < MCLBYTES
    ensures if prev.None? then NoPair(pool.mem, c, |c|) else NoPair(pool.mem, c, k + 2)
  {
    hide Rearranged, Ok, LinkedTo, Len;
    RearrangedSelf(pool.mem, c);
    var m := m0;
    k := 0;
    Follow(pool.mem, pool.mem, c, c, 0);
    while pool.mem.mbufs[m].next.Some?
      invariant k < |c| && c[k] == m && m in pool.mem.mbufs && NoPair(pool.mem, c, k + 2)
      decreases |c| - k
    {
      Follow(pool.mem, pool.mem, c, c, k);
      var n := pool.mem.mbufs[m].next.value;
      Follow(pool.mem, pool.mem, c, c, k + 1);
      var n2 := pool.mem.mbufs[n].next;
      if n2.Some? && Len(pool.mem, n) + Len(pool.mem, n2.value) < MCLBYTES {
        return Some(m), k;
      }
      m, k := n, k + 1;
    }
    Follow(pool.mem, pool.mem, c, c, k);
    return None, 0;
  }

  /** Replace the two mbufs behind prev by one cluster. */
  method ClusterPair(pool: Pool, prev: Id, ghost mem0: Mem, ghost c0: seq<Id>, ghost c1: seq<Id>, ghost f1: seq<Frag>,
                     ghost k: nat)
    returns (i: Option<Id>, ghost c: seq<Id>)
    requires Rearranged(mem0, pool.mem, c0, c1) && k + 2 < |c1| && c1[k] == prev && Shows(pool.mem, c1, f1)
    requires Fits(f1, k)
    requires Len(pool.mem, c1[k + 1]) + Len(pool.mem, c1[k + 2]) < MCLBYTES
    modifies pool`mem, pool`budget
    ensures i.None? ==> c == c1 && pool.mem == old(pool.mem)
    ensures (i.Some? <==> old(pool.budget) > 0) && pool.budget == if i.Some? then old(pool.budget) - 1 else 0
    ensures i.Some? ==> Rearranged(mem0, pool.mem, c0, c) && |c| == |c1| - 1 && c[k + 1] == i.value && c[0] == c1[0]
    ensures i.Some? ==> Shows(pool.mem, c, Paired(f1, k))
  {
    hide Rearranged, Ok, FreeOne, SetNext, NewWith, Shows, Fits, Paired, Carrying, Trailing, Relinked;
    RearrangedOk(mem0, pool.mem, c0, c1);
    Follow(mem0, pool.mem, c0, c1, k);
    Follow(mem0, pool.mem, c0, c1, k + 1);
    Follow(mem0, pool.mem, c0, c1, k + 2);
    ghost var mem1 := pool.mem;
    var n := pool.mem.mbufs[prev].next.value;
    var n2 := pool.mem.mbufs[n].next.value;
    var after := pool.mem.mbufs[n2].next;
    c := c1;
    i := FilledCluster(pool, n, n2, mem0, c0, c1, k);
    if i.None? { return; }
    PairReplaced(mem0, mem1, pool.mem, c0, c1, k, i.value);
    PairIsRelinked(pool.mem, i.value, after, prev);
    ShowsLen(mem1, c1, f1);
    PairShows(mem1, pool.mem, c1, f1, k, i.value, after);
    pool.mem := Relinked(pool.mem, i.value, after, prev);
    pool.mem := FreeOne(pool.mem, n);
    pool.mem := FreeOne(pool.mem, n2);
    c := c1[..k + 1] + ([i.value] + c1[k + 3..]);
  }

  function Relinked(mem: Mem, i: Id, after: Option<Id>, prev: Id): Mem
    requires i in mem.mbufs && prev in mem.mbufs
  {
    SetNext(SetNext(mem, i, after), prev, Some(i))
  }

  method FilledCluster(pool: Pool, n: Id, n2: Id, ghost mem0: Mem, ghost c0: seq<Id>, ghost c1: seq<Id>, ghost k: nat)
    returns (i: Option<Id>)
    requires Rearranged(mem0, pool.mem, c0, c1) && k + 2 < |c1| && c1[k + 1] == n && c1[k + 2] == n2
    requires Len(pool.mem, n) + Len(pool.mem, n2) < MCLBYTES
    modifies pool`mem, pool`budget
    ensures i.None? ==> pool.mem == old(pool.mem)
    ensures (i.Some? <==> old(pool.budget) > 0) && pool.budget == if i.Some? then old(pool.budget) - 1 else 0
    ensures i.Some? ==> NewWith(old(pool.mem), pool.mem, i.value, Bytes(old(pool.mem), n) + Bytes(old(pool.mem), n2))
    ensures i.Some? ==> Carrying(old(pool.mem), pool.mem)
                        && Trailing(pool.mem, i.value) == MCLBYTES - Len(old(pool.mem), n) - Len(old(pool.mem), n2)
  {
    hide Rearranged, Ok, NewWith, NewOne, Bytes, LinkedTo, Carrying, Trailing;
    RearrangedOk(mem0, pool.mem, c0, c1);
    Follow(mem0, pool.mem, c0, c1, k + 1);
    Follow(mem0, pool.mem, c0, c1, k + 2);
    ghost var mem1 := pool.mem;
    ChainLength(mem1, [], n);
    ChainLength(mem1, [], n2);
    var d := Bytes(pool.mem, n) + Bytes(pool.mem, n2);
    i := pool.Get(MCLBYTES, true, 0, false);
    if i.Some? {
      FillNew(mem1, pool.mem, i.value, MCLBYTES, d);
      PieceFacts(mem1, pool.mem, i.value, MCLBYTES, d);
      pool.mem := Extend(pool.mem, i.value, d);
    }
  }

  lemma {:induction false} PairIsRelinked(mem: Mem, i: Id, after: Option<Id>, prev: Id)
    requires i in mem.mbufs && prev in mem.mbufs
    ensures Relinked(mem, i, after, prev) == SetNext(SetNext(mem, i, after), prev, Some(i))
  {
  }

  /** The new cluster in place of the two, as fragments. */
  lemma {:induction false} PairShows(mem1: Mem, mem: Mem, c: seq<Id>, f: seq<Frag>, k: nat, i: Id, after: Option<Id>)
    requires Ok(mem1) && LinkedTo(mem1.mbufs, c, None) && Shows(mem1, c, f) && Fits(f, k) && |f| == |c|
    requires NewWith(mem1, mem, i, Bytes(mem1, c[k + 1]) + Bytes(mem1, c[k + 2])) && Carrying(mem1, mem)
    requires Trailing(mem, i) == MCLBYTES - Len(mem1, c[k + 1]) - Len(mem1, c[k + 2]) && c[k] in mem.mbufs
    ensures i in mem.mbufs
    ensures Shows(FreeOne(FreeOne(Relinked(mem, i, after, c[k]), c[k + 1]), c[k + 2]), c[..k + 1] + ([i] + c[k + 3..]),
                  Paired(f, k))
  {
    assert (forall i, j :: 0 <= i < j < |c| ==> c[i] != c[j]) && c[k + 1] in mem1.mbufs && c[k + 2] in mem1.mbufs;
    assert ShowsAt(mem1, c, c[k + 1], f[k + 1]) && ShowsAt(mem1, c, c[k + 2], f[k + 2]);
    hide Ok, LinkedTo, Shows, NewWith, Carrying, Trailing, Relinked, FreeOne, Bytes, Paired, Exchanged, Brand;
    var mem' := FreeOne(FreeOne(Relinked(mem, i, after, c[k]), c[k + 1]), c[k + 2]);
    ChainLength(mem1, [], c[k + 1]);
    ChainLength(mem1, [], c[k + 2]);
    PairExchanged(mem1, mem, c[k + 1], c[k + 2], i, after, c[k], Bytes(mem1, c[k + 1]) + Bytes(mem1, c[k + 2]));
    ShowsPair(mem1, mem', c, f, k, i);
  }

  lemma {:induction false} PairExchanged(mem1: Mem, mem: Mem, n: Id, n2: Id, i: Id, after: Option<Id>, prev: Id,
                                         d: seq<byte>)
    requires Ok(mem1) && n in mem1.mbufs && n2 in mem1.mbufs && n != n2 && NewWith(mem1, mem, i, d)
    requires Carrying(mem1, mem)
    requires Trailing(mem, i) == MCLBYTES - |d| > 0 && prev in mem.mbufs
    ensures i in mem.mbufs
    ensures var mem' := FreeOne(FreeOne(Relinked(mem, i, after, prev), n), n2);
            Exchanged(mem1, mem', n, n2, i) && Brand(mem', i, |d|)
  {
    hide Ok, FreeOne, Bytes, Untouched, SetNext, Alike, Carried;
    NewThere(mem1, mem, n, n2, i, d);
    SetNextOk(mem, i, after);
    var mem2 := SetNext(mem, i, after);
    SetNextOk(mem2, prev, Some(i));
    var mem3 := SetNext(mem2, prev, Some(i));
    FreeOneOk(mem3, n);
    var mem4 := FreeOne(mem3, n);
    FreeOneOk(mem4, n2);
    var mem' := FreeOne(mem4, n2);
    forall u | u in mem.mbufs && u != n && u != n2 ensures Alike(mem, mem', u) {
      AlikeNext(mem, i, after, u);
      AlikeNext(mem2, prev, Some(i), u);
      AlikeTrans(mem, mem2, mem3, u);
      AlikeFree(mem3, n, u);
      AlikeTrans(mem, mem3, mem4, u);
      AlikeFree(mem4, n2, u);
      AlikeTrans(mem, mem4, mem', u);
    }
    forall u | u in mem1.mbufs && u != n && u != n2 ensures Alike(mem1, mem', u) {
      assert Carried(mem1, mem, u, 0);
      AlikeCarried(mem1, mem, u, 0);
      AlikeTrans(mem1, mem, mem', u);
    }
    BrandKept(mem, mem', i, |d|);
  }

  lemma {:induction false} AlikeFree(mem: Mem, n: Id, x: Id)
    requires Ok(mem) && n in mem.mbufs && x in mem.mbufs && x != n
    ensures Alike(mem, FreeOne(mem, n), x)
  {
    hide Ok, FreeOne;
    CarriedFree(mem, n, x);
    AlikeCarried(mem, FreeOne(mem, n), x, if mem.mbufs[n].store == mem.mbufs[x].store then 1 else 0);
  }

  lemma {:induction false} NewThere(mem1: Mem, mem: Mem, n: Id, n2: Id, i: Id, d: seq<byte>)
    requires n in mem1.mbufs && n2 in mem1.mbufs && NewWith(mem1, mem, i, d) && Trailing(mem, i) == MCLBYTES - |d| > 0
    ensures Ok(mem) && i in mem.mbufs && i !in mem1.mbufs && n in mem.mbufs && n2 in mem.mbufs
    ensures forall u :: u in mem.mbufs <==> u == i || u in mem1.mbufs
    ensures Brand(mem, i, |d|)
  {
    UntouchedAt(mem1, mem, {}, n);
    UntouchedAt(mem1, mem, {}, n2);
    assert forall u :: u in mem.mbufs <==> u in Live(mem);
    FitsOf(mem, i);
    SliceLength(mem, i);
    hide Ok, Untouched, Bytes;
    forall u | u in mem.mbufs && u != i ensures mem.mbufs[u].store != mem.mbufs[i].store { OnlyUser(mem, i, u); }
  }

  lemma {:induction false} BrandKept(mem: Mem, mem': Mem, i: Id, n: nat)
    requires Brand(mem, i, n) && Alike(mem, mem', i)
    requires forall u :: u in mem'.mbufs ==> u in mem.mbufs && Alike(mem, mem', u)
    ensures Brand(mem', i, n)
  {
  }

  method Count(pool: Pool, m0: Id, ghost c: seq<Id>) returns (frags: nat)
    requires Ok(pool.mem) && c != [] && c[0] == m0 && LinkedTo(pool.mem.mbufs, c, None)
    ensures frags == |c|
  {
    var m := Some(m0);
    frags := 0;
    while m.Some?
      invariant frags <= |c| && m == Head(c[frags..], None)
      decreases |c| - frags
    {
      m := pool.mem.mbufs[m.value].next;
      frags := frags + 1;
    }
  }

  // ---- m_collapse ----

  /** The first pair of the chain is the first of the fragments. */
  lemma {:induction false} PairIsFirst(mem: Mem, c: seq<Id>, f: seq<Frag>, j: nat, k: nat)
    requires Shows(mem, c, f) && j <= k && k + 2 < |c| && NoPair(mem, c, k + 2)
    requires Len(mem, c[k + 1]) + Len(mem, c[k + 2]) < MCLBYTES
    ensures FirstPair(f, j) == Some(k) && Fits(f, k)
    decreases k - j
  {
    hide Len, Outside, Space;
    assert ShowsAt(mem, c, c[j + 1], f[j + 1]) && ShowsAt(mem, c, c[j + 2], f[j + 2]);
    if j < k {
      assert Len(mem, c[j + 1]) + Len(mem, c[j + 1 + 1]) >= MCLBYTES;
      PairIsFirst(mem, c, f, j + 1, k);
    }
  }

  lemma {:induction false} NoPairIs(mem: Mem, c: seq<Id>, f: seq<Frag>, j: nat)
    requires Shows(mem, c, f) && NoPair(mem, c, |c|)
    ensures FirstPair(f, j) == None
    decreases |c| - j
  {
    hide Len, Outside, Space;
    if j + 2 < |c| {
      assert ShowsAt(mem, c, c[j + 1], f[j + 1]) && ShowsAt(mem, c, c[j + 2], f[j + 2]);
      assert Len(mem, c[j + 1]) + Len(mem, c[j + 1 + 1]) >= MCLBYTES;
      NoPairIs(mem, c, f, j + 1);
    }
  }

  /** When a chain that is short enough already is collapsed all the same. */
  ghost predicate CanShorten(mem: Mem, c: seq<Id>, budget: nat) {
    !NoFold(mem, c, 0, |c|) || (budget > 0 && !NoPair(mem, c, |c|))
  }

  /** Where no two neighbours fit into a cluster, half of the mbufs behind the first fill one each. */
  lemma {:induction false} PairsFill(mem: Mem, c: seq<Id>)
    requires Ok(mem) && c != [] && LinkedTo(mem.mbufs, c, None) && NoPair(mem, c, |c|)
    ensures |ChainBytes(mem, c)| >= MCLBYTES * ((|c| - 1) / 2)
  {
    hide Ok, LinkedTo, ChainBytes;
    assert c == [c[0]] + c[1..];
    BytesConcat(mem, [c[0]], c[1..]);
    assert forall i :: 0 <= i < |c[1..]| ==> c[1..][i] == c[i + 1];
    assert forall i :: 0 <= i < |c| ==> c[i] in mem.mbufs by { AllThere(mem, c); }
    TightFills(mem, c[1..]);
  }

  lemma {:induction false} AllThere(mem: Mem, c: seq<Id>)
    requires LinkedTo(mem.mbufs, c, None)
    ensures forall i :: 0 <= i < |c| ==> c[i] in mem.mbufs
  {
  }

  lemma {:induction false} TightFills(mem: Mem, d: seq<Id>)
    requires Ok(mem) && (forall i :: 0 <= i < |d| ==> d[i] in mem.mbufs)
    requires forall i :: 0 <= i < |d| - 1 ==> Len(mem, d[i]) + Len(mem, d[i + 1]) >= MCLBYTES
    ensures |ChainBytes(mem, d)| >= MCLBYTES * (|d| / 2)
    decreases |d|
  {
    if |d| >= 2 {
      var e := d[2..];
      assert forall i :: 0 <= i < |e| ==> e[i] == d[i + 2];
      TightFills(mem, e);
      TwoLengths(mem, d);
      assert |e| / 2 == |d| / 2 - 1;
    }
  }

  lemma {:induction false} TwoLengths(mem: Mem, d: seq<Id>)
    requires Ok(mem) && |d| >= 2 && d[0] in mem.mbufs && d[1] in mem.mbufs
    ensures |ChainBytes(mem, d)| == Len(mem, d[0]) + Len(mem, d[1]) + |ChainBytes(mem, d[2..])|
  {
    hide Ok, Bytes, ChainBytes;
    assert d == [d[0]] + ([d[1]] + d[2..]);
    BytesConcat(mem, [d[0]], [d[1]] + d[2..]);
    BytesConcat(mem, [d[1]], d[2..]);
    BytesOne(mem, d[0]);
    BytesOne(mem, d[1]);
    ChainLength(mem, [], d[0]);
    ChainLength(mem, [], d[1]);
  }

  /** How far a collapse of c0 has come: c0 as it was, or a shorter chain that is still too long; every
      cluster it took has saved an mbuf. */
  ghost predicate Shrinking(mem0: Mem, mem: Mem, c0: seq<Id>, c: seq<Id>, k: nat, maxfrags: nat, budget0: nat,
                            budget: nat) {
    && Rearranged(mem0, mem, c0, c) && k < |c| <= |c0| && c[0] == c0[0] && budget <= budget0 <= budget + (|c0| - |c|)
    && if |c| == |c0| then mem == mem0 && c == c0 && k == 0 && budget == budget0 else |c| > maxfrags
  }

  /** What a collapse of c0 into c promises. */
  ghost predicate Collapsed(mem0: Mem, mem: Mem, c0: seq<Id>, c: seq<Id>, ok: bool, maxfrags: nat, budget0: nat) {
    && c != [] && c0 != [] && c[0] == c0[0] && Rearranged(mem0, mem, c0, c)
    && (if ok then |c| <= maxfrags && |c| < |c0| else |c| == |c0| || |c| > maxfrags)
    && (|c0| <= maxfrags ==> (ok <==> CanShorten(mem0, c0, budget0)))
    && (!ok ==> NoPair(mem, c, |c|) || budget0 <= |c0| - |c|)
  }

  /** m_collapse: at most maxfrags mbufs, or none of its business. The bytes never change; it
      succeeds only after at least one merge, and exactly when the fragments say so. A chain that is
      longer than that, but whose bytes fill less than every other of maxfrags clusters, is shortened if
      there is memory for it. */
  method Collapse(pool: Pool, m0: Id, maxfrags: nat, ghost c0: seq<Id>) returns (r: Option<Id>, ghost c: seq<Id>)
    requires Ok(pool.mem) && c0 != [] && c0[0] == m0 && LinkedTo(pool.mem.mbufs, c0, None)
    modifies pool`mem, pool`budget
    ensures Collapsed(old(pool.mem), pool.mem, c0, c, r.Some?, maxfrags, old(pool.budget))
    ensures (r.Some? ==> r.value == m0)
    ensures var out := Shrink(FragsOf(old(pool.mem), c0), 0, maxfrags, old(pool.budget));
            (r.Some? <==> out.ok) && Shows(pool.mem, c, out.f)
    ensures |c0| == 1 ==> r.None?
    ensures maxfrags < |c0| <= old(pool.budget) && |old(ChainBytes(pool.mem, c0))| < MCLBYTES * (maxfrags / 2) ==>
              r.Some?
  {
    hide Rearranged, Ok, LinkedTo, NoPair, NoFold, ChainBytes, Shows, Fold, FirstPair, Fits, Paired;
    var frags := Count(pool, m0, c0);
    RearrangedSelf(pool.mem, c0);
    AllThere(pool.mem, c0);
    ShowsFrags(pool.mem, c0);
    ghost var f := FragsOf(pool.mem, c0);
    ghost var f0 := f;
    var m, done := m0, false;
    c := c0;
    ghost var k: nat, mem0, budget0 := 0, pool.mem, pool.budget;
    while true
      invariant Shrinking(mem0, pool.mem, c0, c, k, maxfrags, budget0, pool.budget) && |c| == frags && c[k] == m
      invariant Shows(pool.mem, c, f) && Shrink(f, k, maxfrags, pool.budget) == Shrink(f0, 0, maxfrags, budget0)
      decreases |c|
    {
      done, frags, c, f := FoldAgain(pool, m, frags, maxfrags, mem0, c0, c, f, k);
      ShowsLen(pool.mem, c, f);
      if done { return Some(m0), c; }
      var prev, i;
      RearrangedOk(mem0, pool.mem, c0, c);
      prev, k := FindPair(pool, m0, c);
      if prev.None? {
        TooMuch(mem0, pool.mem, c0, c, maxfrags);
        NoPairIs(pool.mem, c, f, 0);
        return None, c;
      }
      FoundPair(pool.mem, c, k);
      PairIsFirst(pool.mem, c, f, 0, k);
      i, c := ClusterPair(pool, prev.value, mem0, c0, c, f, k);
      if i.None? { return None, c; }
      f := Paired(f, k);
      frags := frags - 1;
      if frags <= maxfrags { return Some(m0), c; }
      m, k := i.value, k + 1;
    }
  }

  lemma {:induction false} FoundPair(mem: Mem, c: seq<Id>, k: nat)
    requires k + 2 < |c| && Len(mem, c[k + 1]) + Len(mem, c[k + 2]) < MCLBYTES
    ensures !NoPair(mem, c, |c|)
  {
    assert Len(mem, c[k + 1]) + Len(mem, c[k + 1 + 1]) < MCLBYTES;
  }

  lemma {:induction false} TooMuch(mem0: Mem, mem: Mem, c0: seq<Id>, c: seq<Id>, maxfrags: nat)
    requires Rearranged(mem0, mem, c0, c) && c != [] && NoPair(mem, c, |c|)
    ensures |c| > maxfrags ==> |ChainBytes(mem0, c0)| >= MCLBYTES * (maxfrags / 2)
  {
    PairsFill(mem, c);
    if |c| > maxfrags { assert (|c| - 1) / 2 >= maxfrags / 2; }
  }

  method FoldAgain(pool: Pool, m: Id, frags1: nat, maxfrags: nat, ghost mem0: Mem, ghost c0: seq<Id>, ghost c1: seq<Id>,
                   ghost f1: seq<Frag>, ghost k: nat)
    returns (done: bool, frags: nat, ghost c: seq<Id>, ghost f: seq<Frag>)
    requires Rearranged(mem0, pool.mem, c0, c1) && k < |c1| == frags1 && c1[k] == m && Shows(pool.mem, c1, f1)
    modifies pool`mem
    ensures Shows(pool.mem, c, f) && Outcome(f, done) == Fold(f1, k, maxfrags)
    ensures Rearranged(mem0, pool.mem, c0, c) && 0 < |c| == frags <= |c1| && c[0] == c1[0]
    ensures |c| == |c1| ==> pool.mem == old(pool.mem) && c == c1
    ensures |c| == |c1| <==> NoFold(old(pool.mem), c1, k, |c1|)
    ensures done <==> |c| < |c1| && |c| <= maxfrags
  {
    hide Rearranged, NoFold, OwnStores, Shows, Fold;
    RearrangedOk(mem0, pool.mem, c0, c1);
    ghost var mem1 := pool.mem;
    done, frags, c, f := FoldForward(pool, m, frags1, maxfrags, c1, f1, k);
    RearrangedTrans(mem0, mem1, pool.mem, c0, c1, c);
  }

  lemma {:induction false} RearrangedOk(mem0: Mem, mem: Mem, c0: seq<Id>, c: seq<Id>)
    requires Rearranged(mem0, mem, c0, c)
    ensures Ok(mem) && LinkedTo(mem.mbufs, c, None)
  {
  }
}

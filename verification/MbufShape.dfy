/** m_collapse on the lengths and the room of the mbufs alone: whether it succeeds, and what chain it leaves. */
module MbufShape {
  import opened Basics
  import opened MbufMem
  import opened MbufChains
  import opened MbufNeed

  // ---- Chains as rows of fragments ----

  /** One mbuf of a chain: its bytes, the room behind them, the data area, if others may use that too,
      and whether mbufs outside the chain use it or it is read-only. */
  datatype Frag = Frag(len: nat, space: nat, store: Option<Sid>, locked: bool)

  predicate Joint(a: Frag, b: Frag) { a.store.Some? && a.store == b.store }

  /** No other fragment uses the same data area. */
  ghost predicate Single(f: seq<Frag>, k: nat)
    requires k < |f|
  {
    forall j :: 0 <= j < |f| && j != k ==> !Joint(f[j], f[k])
  }

  ghost predicate CanTake(f: seq<Frag>, k: nat) {
    k + 1 < |f| && !f[k].locked && Single(f, k) && f[k + 1].len < f[k].space
  }

  /** Fragment k takes over its neighbour. */
  ghost function Taken(f: seq<Frag>, k: nat): (r: seq<Frag>)
    requires CanTake(f, k)
    ensures |r| == |f| - 1
  {
    f[..k] + [f[k].(len := f[k].len + f[k + 1].len, space := f[k].space - f[k + 1].len)] + f[k + 2..]
  }

  /** The row, and whether it is short enough. */
  datatype Outcome = Outcome(f: seq<Frag>, ok: bool)

  /** One pass, from fragment k to the end; it stops when max are left. */
  ghost function Fold(f: seq<Frag>, k: nat, max: nat): (r: Outcome)
    ensures |r.f| <= |f|
    decreases |f| - k
  {
    if k + 1 >= |f| then Outcome(f, false)
    else if !CanTake(f, k) then Fold(f, k + 1, max)
    else if |f| - 1 <= max then Outcome(Taken(f, k), true)
    else Fold(Taken(f, k), k, max)
  }

  ghost predicate Fits(f: seq<Frag>, k: nat) { k + 2 < |f| && f[k + 1].len + f[k + 2].len < MCLBYTES }

  /** The first fragment from k on behind which two fit into a cluster. */
  ghost function FirstPair(f: seq<Frag>, k: nat): (r: Option<nat>)
    ensures r.Some? ==> k <= r.value && Fits(f, r.value)
    decreases |f| - k
  {
    if k + 2 >= |f| then None else if Fits(f, k) then Some(k) else FirstPair(f, k + 1)
  }

  /** The two behind fragment k, in a cluster of their own. */
  ghost function Paired(f: seq<Frag>, k: nat): (r: seq<Frag>)
    requires Fits(f, k)
    ensures |r| == |f| - 1
  {
    var n := f[k + 1].len + f[k + 2].len;
    f[..k + 1] + [Frag(n, MCLBYTES - n, None, false)] + f[k + 3..]
  }

  /** m_collapse: passes, and in between one cluster each for the first two that fit into one. */
  ghost function Shrink(f: seq<Frag>, k: nat, max: nat, budget: nat): Outcome
    decreases |f|
  {
    var r := Fold(f, k, max);
    if r.ok then r else
      var p := FirstPair(r.f, 0);
      if p.None? || budget == 0 then r
      else if |r.f| - 1 <= max then Outcome(Paired(r.f, p.value), true)
      else Shrink(Paired(r.f, p.value), p.value + 1, max, budget - 1)
  }

  // ---- What a chain shows ----

  /** Someone outside the chain uses the data area of x. */
  ghost predicate Outside(mem: Mem, c: seq<Id>, x: Id) {
    x in mem.mbufs && exists u :: u in mem.mbufs && u !in c && mem.mbufs[u].store == mem.mbufs[x].store
  }

  ghost predicate ShowsAt(mem: Mem, c: seq<Id>, x: Id, a: Frag) {
    && x in mem.mbufs && a.len == Len(mem, x) && a.space == Space(mem, x)
    && (a.locked <==> mem.mbufs[x].rdonly || Outside(mem, c, x))
  }

  ghost predicate SameStore(mem: Mem, x: Id, y: Id) {
    x in mem.mbufs && y in mem.mbufs && mem.mbufs[x].store == mem.mbufs[y].store
  }

  ghost predicate Shows(mem: Mem, c: seq<Id>, f: seq<Frag>) {
    && |f| == |c| && (forall i :: 0 <= i < |c| ==> ShowsAt(mem, c, c[i], f[i]))
    && forall i, j :: 0 <= i < |c| && 0 <= j < |c| && i != j ==> (SameStore(mem, c[i], c[j]) <==> Joint(f[i], f[j]))
  }

  ghost function FragOf(mem: Mem, c: seq<Id>, x: Id): Frag {
    if x in mem.mbufs
    then Frag(Len(mem, x), Space(mem, x), Some(mem.mbufs[x].store), mem.mbufs[x].rdonly || Outside(mem, c, x))
    else Frag(0, 0, None, true)
  }

  ghost function FragsOf(mem: Mem, c: seq<Id>): seq<Frag> { seq(|c|, i requires 0 <= i < |c| => FragOf(mem, c, c[i])) }

  lemma {:induction false} ShowsFrags(mem: Mem, c: seq<Id>)
    requires forall i :: 0 <= i < |c| ==> c[i] in mem.mbufs
    ensures Shows(mem, c, FragsOf(mem, c))
  {
    hide Len, Space, Outside;
  }

  /** An mbuf may be written just if nobody else, in the chain or outside, uses its data area. */
  lemma {:induction false} WritableIs(mem: Mem, c: seq<Id>, f: seq<Frag>, k: nat)
    requires Ok(mem) && Shows(mem, c, f) && k < |c| && (forall j :: 0 <= j < |c| && j != k ==> c[j] != c[k])
    ensures Writable(mem, c[k]) <==> !f[k].locked && Single(f, k)
    ensures Writable(mem, c[k]) ==> Trailing(mem, c[k]) == f[k].space
  {
    var x := c[k];
    FitsOf(mem, x);
    if Writable(mem, x) {
      forall u | u in mem.mbufs && u != x ensures !SameStore(mem, u, x) { OnlyUser(mem, x, u); }
      assert !Outside(mem, c, x);
    } else if !f[k].locked && Single(f, k) {
      forall u | u in mem.mbufs && u != x ensures !SameStore(mem, u, x) {
        if u in c {
          var j :| 0 <= j < |c| && c[j] == u;
          assert !Joint(f[j], f[k]);
        }
      }
      OneUser(mem, x);
    }
  }

  lemma {:induction false} OneUser(mem: Mem, x: Id)
    requires Ok(mem) && x in mem.mbufs && forall u :: u in mem.mbufs && u != x ==> !SameStore(mem, u, x)
    ensures mem.mbufs[x].store in mem.stores && mem.stores[mem.mbufs[x].store].refs == 1
  {
    FitsOf(mem, x);
    var s := mem.mbufs[x].store;
    assert Counted(mem, s);
    assert Users(mem.mbufs, s) == {x} by {
      forall u ensures u in Users(mem.mbufs, s) <==> u == x {
        if u in mem.mbufs && u != x { assert !SameStore(mem, u, x); }
      }
    }
  }

  // ---- What changes leave of that ----

  /** x is as it was, but for the link to its successor and the count of its data area. */
  ghost predicate Alike(mem: Mem, mem': Mem, x: Id) {
    && x in mem.mbufs && x in mem'.mbufs && mem'.mbufs[x] == mem.mbufs[x].(next := mem'.mbufs[x].next)
    && var s := mem.mbufs[x].store;
       s in mem.stores && s in mem'.stores && |mem'.stores[s].bytes| == |mem.stores[s].bytes|
  }

  lemma {:induction false} AlikeCarried(mem: Mem, mem': Mem, x: Id, drop: nat)
    requires Carried(mem, mem', x, drop)
    ensures Alike(mem, mem', x)
  {
  }

  lemma {:induction false} AlikeTrans(mem: Mem, mem1: Mem, mem2: Mem, x: Id)
    requires Alike(mem, mem1, x) && Alike(mem1, mem2, x)
    ensures Alike(mem, mem2, x)
  {
  }

  lemma {:induction false} AlikeNext(mem: Mem, i: Id, next: Option<Id>, x: Id)
    requires Ok(mem) && i in mem.mbufs && x in mem.mbufs
    ensures Alike(mem, SetNext(mem, i, next), x)
  {
    FitsOf(mem, x);
  }

  /** All but the gone are as they were; those outside c are outside c' now, and nobody else is. */
  ghost predicate Recast(mem: Mem, mem': Mem, c: seq<Id>, c': seq<Id>) {
    && (forall u :: u in mem.mbufs && u !in c ==>
          u in mem'.mbufs && mem'.mbufs[u].store == mem.mbufs[u].store && u !in c')
    && (forall u :: u in mem'.mbufs && u !in c' ==> u in mem.mbufs && u !in c)
  }

  lemma {:induction false} OutsideKept(mem: Mem, mem': Mem, c: seq<Id>, c': seq<Id>, x: Id)
    requires x in mem.mbufs && x in mem'.mbufs && mem'.mbufs[x].store == mem.mbufs[x].store && Recast(mem, mem', c, c')
    ensures Outside(mem', c', x) <==> Outside(mem, c, x)
  {
    if Outside(mem, c, x) {
      var u :| u in mem.mbufs && u !in c && mem.mbufs[u].store == mem.mbufs[x].store;
      assert u in mem'.mbufs && u !in c' && mem'.mbufs[u].store == mem'.mbufs[x].store;
    }
    if Outside(mem', c', x) {
      var u :| u in mem'.mbufs && u !in c' && mem'.mbufs[u].store == mem'.mbufs[x].store;
      assert u in mem.mbufs && u !in c && mem.mbufs[u].store == mem.mbufs[x].store;
    }
  }

  /** x shows the same fragment. */
  lemma {:induction false} ShowsKept(mem: Mem, mem': Mem, c: seq<Id>, c': seq<Id>, x: Id, a: Frag)
    requires ShowsAt(mem, c, x, a) && Alike(mem, mem', x) && Recast(mem, mem', c, c')
    ensures ShowsAt(mem', c', x, a)
  {
    hide Outside, Recast;
    OutsideKept(mem, mem', c, c', x);
  }

  // ---- Taking over a neighbour ----

  /** mem' is mem without n, whose bytes m has taken over; all others are alike. */
  ghost predicate Merged(mem: Mem, mem': Mem, m: Id, n: Id) {
    && m in mem.mbufs && n in mem.mbufs && m in mem'.mbufs && m != n
    && mem'.mbufs[m].store == mem.mbufs[m].store && mem'.mbufs[m].rdonly == mem.mbufs[m].rdonly
    && Len(mem', m) == Len(mem, m) + Len(mem, n) && Space(mem, m) == Space(mem', m) + Len(mem, n)
    && (forall u :: u in mem'.mbufs ==> u in mem.mbufs && u != n)
    && (forall u :: u in mem.mbufs && u != m && u != n ==> Alike(mem, mem', u))
  }

  lemma {:induction false} AbsorbMerged(mem: Mem, m: Id, n: Id, next: Option<Id>)
    requires Ok(mem) && AbsorbFits(mem, m, n) && Writable(mem, m) && Len(mem, n) < Trailing(mem, m)
    ensures Merged(mem, Absorb(mem, m, n, next), m, n)
  {
    hide Ok, Absorb, Bytes, Untouched, Trailing, Space, Alike, Writable;
    var mem' := Absorb(mem, m, n, next);
    SpaceIs(mem, m);
    AbsorbOk(mem, m, n, next);
    AbsorbTaker(mem, m, n, next);
    SpaceIs(mem', m);
    forall u | u in mem.mbufs && u != m && u != n ensures Alike(mem, mem', u) { AbsorbAlike(mem, m, n, next, u); }
  }

  lemma {:induction false} AbsorbAlike(mem: Mem, m: Id, n: Id, next: Option<Id>, u: Id)
    requires Ok(mem) && AbsorbFits(mem, m, n) && mem.stores[mem.mbufs[m].store].refs == 1
    requires u in mem.mbufs && u != m && u != n
    ensures Alike(mem, Absorb(mem, m, n, next), u)
  {
    hide Ok, Absorb;
    AbsorbCarries(mem, m, n, next, u);
    AlikeCarried(mem, Absorb(mem, m, n, next), u, if mem.mbufs[n].store == mem.mbufs[u].store then 1 else 0);
  }

  lemma {:induction false} SpaceIs(mem: Mem, x: Id)
    ensures Trailing(mem, x) > 0 ==>
              && x in mem.mbufs && mem.mbufs[x].store in mem.stores && mem.stores[mem.mbufs[x].store].refs == 1
              && Space(mem, x) == Trailing(mem, x)
  {
  }

  lemma {:induction false} TakeRecast(mem: Mem, mem': Mem, c: seq<Id>, k: nat)
    requires k + 1 < |c| && Merged(mem, mem', c[k], c[k + 1]) && forall i, j :: 0 <= i < j < |c| ==> c[i] != c[j]
    ensures Recast(mem, mem', c, c[..k + 1] + c[k + 2..])
  {
    hide Len, Space;
    forall u | u in c && u != c[k + 1] ensures u in c[..k + 1] + c[k + 2..] {
      var i :| 0 <= i < |c| && c[i] == u;
      assert u == if i <= k then c[..k + 1][i] else c[k + 2..][i - k - 2];
    }
  }

  lemma {:induction false} ShowsTake(mem: Mem, mem': Mem, c: seq<Id>, f: seq<Frag>, k: nat)
    requires Shows(mem, c, f) && CanTake(f, k) && Merged(mem, mem', c[k], c[k + 1])
    requires forall i, j :: 0 <= i < j < |c| ==> c[i] != c[j]
    ensures Shows(mem', c[..k + 1] + c[k + 2..], Taken(f, k))
  {
    hide ShowsAt, SameStore, Merged;
    var c', f' := c[..k + 1] + c[k + 2..], Taken(f, k);
    forall i | 0 <= i < |c'| ensures ShowsAt(mem', c', c'[i], f'[i]) { TakeAt(mem, mem', c, f, k, i); }
    forall i, j | 0 <= i < |c'| && 0 <= j < |c'| && i != j
      ensures SameStore(mem', c'[i], c'[j]) <==> Joint(f'[i], f'[j])
    {
      TakeStores(mem, mem', c, f, k, i, j);
    }
  }

  lemma {:induction false} TakeAt(mem: Mem, mem': Mem, c: seq<Id>, f: seq<Frag>, k: nat, i: nat)
    requires Shows(mem, c, f) && CanTake(f, k) && Merged(mem, mem', c[k], c[k + 1])
    requires (forall i, j :: 0 <= i < j < |c| ==> c[i] != c[j]) && i < |c| - 1
    ensures var c' := c[..k + 1] + c[k + 2..]; ShowsAt(mem', c', c'[i], Taken(f, k)[i])
  {
    hide Recast, Outside, Len, Space, Single, Alike;
    var c', h := c[..k + 1] + c[k + 2..], if i <= k then i else i + 1;
    assert c'[i] == c[h] && ShowsAt(mem, c, c[h], f[h]) && ShowsAt(mem, c, c[k + 1], f[k + 1]);
    TakeRecast(mem, mem', c, k);
    if h == k {
      OutsideKept(mem, mem', c, c', c[k]);
    } else {
      assert Alike(mem, mem', c[h]);
      ShowsKept(mem, mem', c, c', c[h], f[h]);
    }
  }

  lemma {:induction false} TakeStores(mem: Mem, mem': Mem, c: seq<Id>, f: seq<Frag>, k: nat, i: nat, j: nat)
    requires Shows(mem, c, f) && CanTake(f, k) && Merged(mem, mem', c[k], c[k + 1])
    requires (forall i, j :: 0 <= i < j < |c| ==> c[i] != c[j]) && i < |c| - 1 && j < |c| - 1 && i != j
    ensures var c' := c[..k + 1] + c[k + 2..];
            SameStore(mem', c'[i], c'[j]) <==> Joint(Taken(f, k)[i], Taken(f, k)[j])
  {
    hide Outside, Len, Space, Single;
    var c', g, h := c[..k + 1] + c[k + 2..], if i <= k then i else i + 1, if j <= k then j else j + 1;
    assert SameStore(mem, c[g], c[h]) <==> Joint(f[g], f[h]);
    assert ShowsAt(mem, c, c[g], f[g]) && ShowsAt(mem, c, c[h], f[h]);
    assert c'[i] == c[g] && c'[j] == c[h];
    assert g != k ==> Alike(mem, mem', c[g]);
    assert h != k ==> Alike(mem, mem', c[h]);
  }

  // ---- Two into a cluster ----

  /** mem' is mem with the new mbuf i, and without n and n2; all others are alike. */
  ghost predicate Exchanged(mem: Mem, mem': Mem, n: Id, n2: Id, i: Id) {
    && i !in mem.mbufs && (forall u :: u in mem'.mbufs ==> u == i || (u in mem.mbufs && u != n && u != n2))
    && (forall u :: u in mem.mbufs && u != n && u != n2 ==> Alike(mem, mem', u))
  }

  /** The new mbuf has its data area to itself. */
  ghost predicate Brand(mem: Mem, i: Id, n: nat) {
    && i in mem.mbufs && Len(mem, i) == n && Space(mem, i) == MCLBYTES - n && !mem.mbufs[i].rdonly
    && forall u :: u in mem.mbufs && u != i ==> mem.mbufs[u].store != mem.mbufs[i].store
  }

  lemma {:induction false} ShowsPair(mem: Mem, mem': Mem, c: seq<Id>, f: seq<Frag>, k: nat, i: Id)
    requires Shows(mem, c, f) && Fits(f, k) && (forall i, j :: 0 <= i < j < |c| ==> c[i] != c[j])
    requires Exchanged(mem, mem', c[k + 1], c[k + 2], i) && Brand(mem', i, f[k + 1].len + f[k + 2].len)
    ensures Shows(mem', c[..k + 1] + ([i] + c[k + 3..]), Paired(f, k))
  {
    hide ShowsAt, SameStore, Exchanged, Brand;
    var c', f' := c[..k + 1] + ([i] + c[k + 3..]), Paired(f, k);
    forall h | 0 <= h < |c'| ensures ShowsAt(mem', c', c'[h], f'[h]) { PairAt(mem, mem', c, f, k, i, h); }
    forall h, j | 0 <= h < |c'| && 0 <= j < |c'| && h != j
      ensures SameStore(mem', c'[h], c'[j]) <==> Joint(f'[h], f'[j])
    {
      PairStores(mem, mem', c, f, k, i, h, j);
    }
  }

  lemma {:induction false} PairRecast(mem: Mem, mem': Mem, c: seq<Id>, k: nat, i: Id)
    requires k + 2 < |c| && Exchanged(mem, mem', c[k + 1], c[k + 2], i) && i in mem'.mbufs
    ensures Recast(mem, mem', c, c[..k + 1] + ([i] + c[k + 3..]))
  {
    var c' := c[..k + 1] + ([i] + c[k + 3..]);
    forall u | u in c && u != c[k + 1] && u != c[k + 2] ensures u in c' {
      var j :| 0 <= j < |c| && c[j] == u;
      assert u == if j <= k then c'[j] else c'[j - 1];
    }
    forall u | u in c' && u != i ensures u in c {
      var j :| 0 <= j < |c'| && c'[j] == u;
      assert u == if j <= k then c[j] else c[j + 1];
    }
    assert c'[k + 1] == i;
  }

  lemma {:induction false} PairAt(mem: Mem, mem': Mem, c: seq<Id>, f: seq<Frag>, k: nat, i: Id, h: nat)
    requires Shows(mem, c, f) && Fits(f, k) && (forall i, j :: 0 <= i < j < |c| ==> c[i] != c[j])
    requires Exchanged(mem, mem', c[k + 1], c[k + 2], i) && Brand(mem', i, f[k + 1].len + f[k + 2].len)
    requires h < |c| - 1
    ensures var c' := c[..k + 1] + ([i] + c[k + 3..]); ShowsAt(mem', c', c'[h], Paired(f, k)[h])
  {
    hide Outside, Len, Space, Recast, Alike;
    var c' := c[..k + 1] + ([i] + c[k + 3..]);
    PairRecast(mem, mem', c, k, i);
    if h == k + 1 {
      assert c'[h] == i;
      BrandAlone(mem', c', i, f[k + 1].len + f[k + 2].len);
    } else {
      var g := if h <= k then h else h + 1;
      assert c'[h] == c[g] && ShowsAt(mem, c, c[g], f[g]) && Paired(f, k)[h] == f[g];
      assert Alike(mem, mem', c[g]);
      ShowsKept(mem, mem', c, c', c[g], f[g]);
    }
  }

  lemma {:induction false} BrandAlone(mem: Mem, c: seq<Id>, i: Id, n: nat)
    requires Brand(mem, i, n) && i in c
    ensures !Outside(mem, c, i)
  {
  }

  lemma {:induction false} PairStores(mem: Mem, mem': Mem, c: seq<Id>, f: seq<Frag>, k: nat, i: Id, h: nat, j: nat)
    requires Shows(mem, c, f) && Fits(f, k) && (forall i, j :: 0 <= i < j < |c| ==> c[i] != c[j])
    requires Exchanged(mem, mem', c[k + 1], c[k + 2], i) && Brand(mem', i, f[k + 1].len + f[k + 2].len)
    requires h < |c| - 1 && j < |c| - 1 && h != j
    ensures var c' := c[..k + 1] + ([i] + c[k + 3..]);
            SameStore(mem', c'[h], c'[j]) <==> Joint(Paired(f, k)[h], Paired(f, k)[j])
  {
    hide Space, Len, Outside;
    var c' := c[..k + 1] + ([i] + c[k + 3..]);
    var g, l := if h <= k then h else h + 1, if j <= k then j else j + 1;
    if h == k + 1 {
      assert c'[h] == i && c'[j] == c[l] && c[l] != i by { assert ShowsAt(mem, c, c[l], f[l]); }
    } else if j == k + 1 {
      assert c'[j] == i && c'[h] == c[g] && c[g] != i by { assert ShowsAt(mem, c, c[g], f[g]); }
    } else {
      assert c'[h] == c[g] && c'[j] == c[l] && Paired(f, k)[h] == f[g] && Paired(f, k)[j] == f[l];
      assert ShowsAt(mem, c, c[g], f[g]) && ShowsAt(mem, c, c[l], f[l]);
      assert Alike(mem, mem', c[g]) && Alike(mem, mem', c[l]);
      assert SameStore(mem, c[g], c[l]) <==> Joint(f[g], f[l]);
    }
  }
}

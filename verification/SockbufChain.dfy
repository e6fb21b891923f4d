/** Mbufs linked through m_next, and the stream socket buffer built on them. */
module SockbufChain {
  import opened Basics
  import opened SockbufValues
  import opened SockbufBooks

  class Mbuf {
    var next: Mbuf?
    var data: seq<byte>
    var room: nat
    var notReady: bool
    var eor: bool
    var writable: bool
    const kind: Kind
    const ext: nat

    constructor (data: seq<byte>, room: nat, notReady: bool, eor: bool, writable: bool, kind: Kind, ext: nat)
      ensures next == null && Value() == Buf(data, room, notReady, eor, kind, ext) && this.writable == writable
    {
      this.next, this.data, this.room, this.notReady, this.eor := null, data, room, notReady, eor;
      this.writable, this.kind, this.ext := writable, kind, ext;
    }

    ghost function Value(): Buf
      reads this`data, this`room, this`notReady, this`eor
    {
      Buf(data, room, notReady, eor, kind, ext)
    }
  }

  ghost function At(c: seq<Mbuf>, i: nat): Mbuf? { if i < |c| then c[i] else null }

  /** c is the chain that starts at first. */
  ghost predicate Linked(c: seq<Mbuf>, first: Mbuf?)
    reads c`next
  {
    first == At(c, 0) && Distinct(c) && forall i {:trigger c[i].next} :: 0 <= i < |c| ==> c[i].next == At(c, i + 1)
  }

  /** v is what the mbufs of c hold. */
  ghost predicate Shows(c: seq<Mbuf>, v: seq<Buf>)
    reads c`data, c`room, c`notReady, c`eor
  {
    |v| == |c| && forall i :: 0 <= i < |c| ==> c[i].Value() == v[i]
  }

  lemma {:induction false} LastOnly(c: seq<Mbuf>, first: Mbuf?)
    requires Linked(c, first) && c != []
    ensures forall i :: 0 <= i < |c| - 1 ==> c[i] != c[|c| - 1]
  {
  }

  lemma {:induction false} ShowsPush(c: seq<Mbuf>, v: seq<Buf>, m: Mbuf, b: Buf)
    requires Shows(c, v) && m.Value() == b
    ensures Shows(c + [m], v + [b])
  {
  }

  lemma {:induction false} ChainTail(c: seq<Mbuf>, v: seq<Buf>, m: Mbuf)
    requires Linked(c, m) && Shows(c, v)
    ensures c != [] && c[0] == m && v[0] == m.Value() && m !in c[1..]
    ensures Linked(c[1..], m.next) && Shows(c[1..], v[1..])
  {
  }

  lemma {:induction false} LinkFront(m: Mbuf, c: seq<Mbuf>)
    requires Linked(c, m.next) && m !in c
    ensures Linked([m] + c, m)
  {
    var d := [m] + c;
    forall i | 0 <= i < |d| ensures d[i].next == At(d, i + 1) {
      if i > 0 { assert c[i - 1].next == At(c, i); }
    }
  }

  /** A cut after len bytes does not end inside an mbuf that is not ready. */
  ghost predicate CutOk(v: seq<Buf>, len: nat) {
    forall i :: 0 <= i < |v| && v[i].notReady ==> len <= Before(v, i) || Before(v, i + 1) <= len
  }

  /** sb_sndptr is null, or in the chain with sb_sndptroff bytes before it and nothing before
      it that is not ready. */
  ghost predicate SndOk(c: seq<Mbuf>, v: seq<Buf>, sndptr: Mbuf?, off: nat, snd: nat)
    requires |c| == |v|
  {
    if sndptr == null then off == 0
    else snd < |c| && c[snd] == sndptr && off == Before(v, snd) && snd <= FirstNotReady(v)
  }

  lemma {:induction false} SndPop(v: seq<Buf>, snd: nat)
    requires v != [] && snd <= FirstNotReady(v)
    ensures Before(v, 0) == 0
    ensures snd > 0 ==> Before(v, snd) == |v[0].data| + Before(v[1..], snd - 1)
    ensures snd > 0 ==> !v[0].notReady && snd - 1 <= FirstNotReady(v[1..])
  {
    if snd > 0 {
      FirstNotReadyPop(v);
      assert v[..snd][1..] == v[1..][..snd - 1];
    }
  }

  ghost predicate Apart(a: seq<Mbuf>, b: seq<Mbuf>) { forall x :: x in a ==> x !in b }

  function Trimmed(v: seq<Buf>, n: nat): seq<Buf>
    requires v != [] && n <= |v[0].data|
  {
    v[0 := v[0].(data := v[0].data[n..])]
  }

  lemma {:induction false} TrimmedReady(v: seq<Buf>, n: nat)
    requires v != [] && n <= |v[0].data|
    ensures FirstNotReady(Trimmed(v, n)) == FirstNotReady(v)
  {
    FirstNotReadyIs(Trimmed(v, n), FirstNotReady(v));
  }

  lemma {:induction false} SndTrim(v: seq<Buf>, n: nat, snd: nat)
    requires v != [] && n <= |v[0].data| && snd <= |v|
    ensures Before(v, 0) == Before(Trimmed(v, n), 0) == 0
    ensures snd > 0 ==> Before(v, snd) >= |v[0].data| && Before(Trimmed(v, n), snd) == Before(v, snd) - n
  {
    if snd > 0 { assert Trimmed(v, n)[..snd][1..] == v[..snd][1..]; }
  }

  /** r is what is left of q after its first n cells. */
  ghost predicate Rest(q: seq<Cell>, n: nat, r: seq<Cell>) { n <= |q| && r == q[n..] }

  lemma {:induction false} CutInside(v: seq<Buf>, len: nat)
    requires v != [] && 0 < len < |v[0].data| && CutOk(v, len)
    ensures !v[0].notReady && Rest(Cells(v), len, Cells(Trimmed(v, len)))
  {
    FirstBefore(v);
    assert v[0].notReady ==> false;
    hide Before, CutOk;
    assert Trimmed(v, len)[1..] == v[1..];
    assert BufCells(Trimmed(v, len)[0]) == BufCells(v[0])[len..];
  }

  lemma {:induction false} FirstBefore(v: seq<Buf>)
    requires v != []
    ensures Before(v, 0) == 0 && Before(v, 1) == |v[0].data|
    ensures forall i :: 0 <= i < |v| ==> Before(v, i + 1) == |v[0].data| + Before(v[1..], i)
    ensures Total(v).len == |v[0].data| + Total(v[1..]).len
  {
    assert v[..0] == [] && v[1..][..0] == [];
    forall i | 0 <= i < |v| ensures Before(v, i + 1) == |v[0].data| + Before(v[1..], i) {
      assert v[..i + 1][1..] == v[1..][..i];
    }
    assert Before(v, 0 + 1) == |v[0].data| + Before(v[1..], 0);
  }

  /** v is v0 without its first k mbufs, or with bytes cut off the next one. */
  ghost predicate UpTo(v0: seq<Buf>, k: nat, v: seq<Buf>) {
    k <= |v0| && (v == v0[k..] || (k < |v0| && v != [] && v[0].data != [] && v[1..] == v0[k + 1..]))
  }

  lemma {:induction false} DropEmpty(v0: seq<Buf>, k: nat, v: seq<Buf>)
    requires UpTo(v0, k, v) && v != [] && v[0].data == []
    ensures v == v0[k..] && UpTo(v0, k + 1, v[1..]) && Cells(v[1..]) == Cells(v)
  {
  }

  lemma {:induction false} SolidCut(v0: seq<Buf>, k: nat, v: seq<Buf>)
    requires UpTo(v0, k, v) && Solid(v0)
    ensures Solid(v)
  {
    forall i | 0 <= i < |v| && v[i].notReady ensures v[i].data != [] {
      if v == v0[k..] { assert v[i] == v0[k + i]; } else if i > 0 { assert v[i] == v[1..][i - 1] == v0[k + i]; }
    }
  }

  /** A cut of len0 bytes from v0 has dropped k mbufs and has len bytes of v still to drop. */
  ghost predicate ToCut(len0: nat, v0: seq<Buf>, k: nat, v: seq<Buf>, len: nat) {
    && k <= |v0| && v == v0[k..] && len <= len0 && len <= Total(v).len && CutOk(v, len)
    && Rest(Cells(v0), len0 - len, Cells(v))
  }

  lemma {:induction false} SomeLeft(len0: nat, v0: seq<Buf>, k: nat, v: seq<Buf>, len: nat)
    requires ToCut(len0, v0, k, v, len) && len > 0
    ensures v != []
  {
  }

  lemma {:induction false} CutNext(len0: nat, v0: seq<Buf>, k: nat, v: seq<Buf>, len: nat)
    requires ToCut(len0, v0, k, v, len) && v != [] && |v[0].data| <= len
    ensures ToCut(len0, v0, k + 1, v[1..], len - |v[0].data|) && v == v0[k..]
  {
    hide CutOk, Rest, Cells, Total;
    CutPast(v, len);
    FirstBefore(v);
    RestRest(Cells(v0), len0 - len, Cells(v), |v[0].data|, Cells(v[1..]));
  }

  lemma {:induction false} CutPast(v: seq<Buf>, len: nat)
    requires v != [] && |v[0].data| <= len && CutOk(v, len)
    ensures CutOk(v[1..], len - |v[0].data|) && Rest(Cells(v), |v[0].data|, Cells(v[1..]))
  {
    FirstBefore(v);
    hide Before;
    forall i | 0 <= i < |v| - 1 && v[1..][i].notReady
      ensures len - |v[0].data| <= Before(v[1..], i) || Before(v[1..], i + 1) <= len - |v[0].data|
    {
      assert v[i + 1].notReady;
    }
  }

  lemma {:induction false} RestRest(q: seq<Cell>, a: nat, r: seq<Cell>, b: nat, t: seq<Cell>)
    requires Rest(q, a, r) && Rest(r, b, t)
    ensures Rest(q, a + b, t)
  {
  }

  /** The mbufs on the free list are those dropped, save the ones still being filled from
      outside. */
  ghost predicate FreeOk(freed: seq<Mbuf>, c: seq<Mbuf>, v: seq<Buf>, k: nat)
    requires k <= |c| == |v|
  {
    && (forall x :: x in freed ==> x in c[..k])
    && (forall i :: 0 <= i < k ==> c[i] in freed || v[i].notReady)
    && (forall i :: 0 <= i < k && c[i] in freed && v[i].notReady ==> v[i].data == [])
  }

  lemma {:induction false} CutStarts(c: seq<Mbuf>, v: seq<Buf>)
    requires |c| == |v|
    ensures Linked([], null) && Apart([], c) && FreeOk([], c, v, 0) && Rest(Cells(v), 0, Cells(v))
  {
  }

  lemma {:induction false} HeadThere(c: seq<Mbuf>, m: Mbuf?)
    requires Linked(c, m) && c != []
    ensures m != null && m == c[0]
  {
  }

  lemma {:induction false} FreeStep(freed: seq<Mbuf>, c: seq<Mbuf>, v: seq<Buf>, k: nat, freed': seq<Mbuf>)
    requires k < |c| == |v| && Distinct(c) && FreeOk(freed, c, v, k)
    requires || (v[k].notReady && freed' == freed)
             || ((!v[k].notReady || v[k].data == []) && freed' == [c[k]] + freed)
    ensures FreeOk(freed', c, v, k + 1)
  {
    assert c[..k + 1] == c[..k] + [c[k]];
  }

  lemma {:induction false} WholeCut(v: seq<Buf>)
    ensures CutOk(v, Total(v).len)
  {
    forall i | 0 <= i < |v| && v[i].notReady
      ensures Total(v).len <= Before(v, i) || Before(v, i + 1) <= Total(v).len
    {
      BeforeMono(v, i + 1, |v|);
    }
  }

  lemma {:induction false} AllCut(v: seq<Buf>)
    requires (v == [] || v[0].data != []) && Cells(v) == []
    ensures v == []
  {
  }

  function Grown(a: Buf, d: seq<byte>): Buf {
    a.(data := a.data + d, room := if a.room >= |d| then a.room - |d| else 0)
  }

  lemma {:induction false} SndPush(c: seq<Mbuf>, v: seq<Buf>, sndptr: Mbuf?, off: nat, snd: nat, m: Mbuf, b: Buf)
    requires |c| == |v| && SndOk(c, v, sndptr, off, snd)
    ensures SndOk(c + [m], v + [b], sndptr, off, snd)
  {
    FirstNotReadyPush(v, b);
    if sndptr != null { assert (v + [b])[..snd] == v[..snd]; }
  }

  lemma {:induction false} SndGrow(c: seq<Mbuf>, v: seq<Buf>, sndptr: Mbuf?, off: nat, snd: nat, b: Buf)
    requires |c| == |v| && v != [] && SndOk(c, v, sndptr, off, snd) && b.notReady == v[|v| - 1].notReady
    ensures SndOk(c, v[|v| - 1 := b], sndptr, off, snd)
    ensures FirstNotReady(v[|v| - 1 := b]) == FirstNotReady(v)
  {
    FirstNotReadyIs(v[|v| - 1 := b], FirstNotReady(v));
    if sndptr != null { assert v[|v| - 1 := b][..snd] == v[..snd]; }
  }

  lemma {:induction false} PushCells(v: seq<Buf>, b: Buf)
    ensures Cells(v + [b.(eor := false)]) == Cells(v) + BufCells(b)
  {
    CellsConcat(v, [b.(eor := false)]);
    CellsOne(b.(eor := false));
    assert BufCells(b.(eor := false)) == BufCells(b);
  }

  lemma {:induction false} GrowCells(v: seq<Buf>, b: Buf)
    requires v != []
    ensures var a := v[|v| - 1];
            !a.notReady && !b.notReady && a.kind == b.kind ==>
              Cells(v[|v| - 1 := Grown(a, b.data)]) == Cells(v) + BufCells(b)
  {
    var k := |v| - 1;
    var a := v[k];
    if !a.notReady && !b.notReady && a.kind == b.kind {
      assert v == v[..k] + [a] && v[k := Grown(a, b.data)] == v[..k] + [Grown(a, b.data)];
      CellsMerge(a, b, Grown(a, b.data));
      hide Cells, BufCells;
      CellsConcat(v[..k], [a]);
      CellsConcat(v[..k], [Grown(a, b.data)]);
      CellsOne(a);
      CellsOne(Grown(a, b.data));
      assert Cells(v[..k]) + BufCells(a) + BufCells(b) == Cells(v[..k]) + (BufCells(a) + BufCells(b));
    }
  }

  /** v grows to w: only the last mbuf may change; it loses no bytes and stays as ready as it was. */
  ghost predicate Grows(v: seq<Buf>, w: seq<Buf>) {
    && |v| <= |w| && (forall i :: 0 <= i < |v| - 1 ==> w[i] == v[i])
    && (v != [] ==> |v[|v| - 1].data| <= |w[|v| - 1].data| && w[|v| - 1].notReady == v[|v| - 1].notReady)
  }

  lemma {:induction false} GrowsOn(u: seq<Buf>, v: seq<Buf>, w: seq<Buf>)
    requires Grows(u, v) && Grows(v, w)
    ensures Grows(u, w)
  {
  }

  /** Whatever w has beyond v holds something. */
  ghost predicate Full(v: seq<Buf>, w: seq<Buf>) { forall i :: |v| <= i < |w| ==> w[i].data != [] }

  lemma {:induction false} FullOn(u: seq<Buf>, v: seq<Buf>, w: seq<Buf>)
    requires Grows(u, v) && Full(u, v) && Grows(v, w) && Full(v, w)
    ensures Full(u, w)
  {
  }

  lemma {:induction false} SolidGrows(v: seq<Buf>, w: seq<Buf>)
    requires Grows(v, w) && Full(v, w) && Solid(v)
    ensures Solid(w)
  {
  }

  /** The chain c0 holding v0 has grown to c holding v, by mbufs that came with from. */
  ghost predicate Joined(c0: seq<Mbuf>, v0: seq<Buf>, c: seq<Mbuf>, v: seq<Buf>, from: seq<Mbuf>) {
    c0 <= c && Grows(v0, v) && forall i :: |c0| <= i < |c| ==> c[i] in from
  }

  lemma {:induction false} JoinedGrows(c0: seq<Mbuf>, v0: seq<Buf>, c: seq<Mbuf>, v: seq<Buf>, from: seq<Mbuf>)
    requires Joined(c0, v0, c, v, from)
    ensures Grows(v0, v)
  {
  }

  lemma {:induction false} JoinedOn(c0: seq<Mbuf>, v0: seq<Buf>, c: seq<Mbuf>, v: seq<Buf>, m: Mbuf, d: seq<Mbuf>,
                                    u: seq<Buf>, from: seq<Mbuf>)
    requires Joined(c0, v0, c, v, from) && Grows(v, u) && (d == c || d == c + [m]) && m in from
    ensures Joined(c0, v0, d, u, from)
  {
    GrowsOn(v0, v, u);
  }

  lemma {:induction false} SkipCells(v: seq<Buf>, w: seq<Buf>)
    requires w != [] && w[0].data == []
    ensures Cells(v) + BufCells(w[0]) + Cells(w[1..]) == Cells(v) + Cells(w[1..])
  {
  }

  ghost predicate AnyEor(w: seq<Buf>) { exists i :: 0 <= i < |w| && w[i].eor }

  lemma {:induction false} EorTail(w: seq<Buf>)
    requires w != []
    ensures AnyEor(w) <==> w[0].eor || AnyEor(w[1..])
  {
    if AnyEor(w) {
      var i :| 0 <= i < |w| && w[i].eor;
      assert i > 0 ==> w[1..][i - 1].eor;
    }
    if AnyEor(w[1..]) {
      var i :| 0 <= i < |w[1..]| && w[1..][i].eor;
      assert w[i + 1].eor;
    }
  }

  ghost function Demoted(w: seq<Buf>, keepNotReady: bool): (r: seq<Buf>)
    ensures |r| == |w|
    ensures forall i :: 0 <= i < |w| ==> r[i] == w[i].(eor := false, notReady := w[i].notReady && keepNotReady)
  {
    seq(|w|, i requires 0 <= i < |w| => w[i].(eor := false, notReady := w[i].notReady && keepNotReady))
  }

  lemma {:induction false} DemotedPlain(w: seq<Buf>, keepNotReady: bool)
    ensures !AnyEor(Demoted(w, keepNotReady))
  {
  }

  lemma {:induction false} DistinctAt(c: seq<Mbuf>, first: Mbuf?, k: nat)
    requires Linked(c, first) && k < |c|
    ensures forall i :: 0 <= i < |c| && i != k ==> c[i] != c[k]
  {
  }

  function Removed(c: seq<Mbuf>, k: nat): (d: seq<Mbuf>)
    requires k < |c|
    ensures |d| == |c| - 1
    ensures forall i :: 0 <= i < |d| ==> d[i] == if i < k then c[i] else c[i + 1]
  {
    c[..k] + c[k + 1..]
  }

  lemma {:induction false} HoldsAt(c: seq<Mbuf>, v: seq<Buf>, k: nat)
    requires Shows(c, v) && k < |c|
    ensures v[k] == c[k].Value()
  {
  }

  /** After m, at position k, was made to point past its neighbour. */
  lemma {:induction false} RemovedLinked(c: seq<Mbuf>, k: nat, first: Mbuf?)
    requires k + 1 < |c| && first == c[0] && Distinct(c)
    requires forall i {:trigger c[i].next} :: 0 <= i < |c| && i != k ==> c[i].next == At(c, i + 1)
    requires c[k].next == At(c, k + 2)
    ensures Linked(Removed(c, k + 1), first)
  {
    var d := Removed(c, k + 1);
    forall i | 0 <= i < |d| ensures d[i].next == At(d, i + 1) {
      if i > k { assert c[i + 1].next == At(c, i + 2); } else if i < k { assert c[i].next == At(c, i + 1); }
    }
  }

  /** After m, at position k, took over its neighbour's bytes. */
  lemma {:induction false} FoldedShows(c: seq<Mbuf>, v: seq<Buf>, k: nat)
    requires k + 1 < |c| == |v| && c[k].Value() == FoldedBuf(v[k], v[k + 1])
    requires forall i :: 0 <= i < |c| && i != k ==> c[i].Value() == v[i]
    ensures Shows(Removed(c, k + 1), Folded(v, k))
  {
    var d, u := Removed(c, k + 1), Folded(v, k);
    forall i | 0 <= i < |d| ensures d[i].Value() == u[i] {
      assert i > k ==> u[i] == v[i + 1];
    }
  }

  lemma {:induction false} FoldedRange(c: seq<Mbuf>, v: seq<Buf>, k: nat, e: nat)
    requires k + 1 < e <= |c| == |v| && forall i :: k <= i < e ==> !v[i].notReady
    ensures |Folded(v, k)| == |v| - 1 && (forall i :: k <= i < e - 1 ==> !Folded(v, k)[i].notReady)
    ensures At(Removed(c, k + 1), k) == c[k] && At(Removed(c, k + 1), e - 1) == At(c, e)
  {
    var u := Folded(v, k);
    assert forall i :: k < i < |u| ==> u[i] == v[i + 1];
  }

  /** A not-ready mbuf holds the readers up exactly when it is sb_fnrdy. */
  lemma {:induction false} Blocks(c: seq<Mbuf>, v: seq<Buf>, first: Mbuf?, p: nat)
    requires Linked(c, first) && p < |c| == |v| && v[p].notReady
    ensures FirstNotReady(v) <= p && (At(c, FirstNotReady(v)) == c[p] <==> FirstNotReady(v) == p)
  {
  }

  lemma {:induction false} FirstReadied(v: seq<Buf>, p: nat, e: nat)
    requires p <= e <= |v| && FirstNotReady(v) <= p
    ensures FirstNotReady(v) <= FirstNotReady(Readied(v, p, e))
    ensures FirstNotReady(v) < p ==> FirstNotReady(Readied(v, p, e)) == FirstNotReady(v)
    ensures FirstNotReady(v) == p ==> e <= FirstNotReady(Readied(v, p, e))
  {
    var u := Readied(v, p, e);
    if FirstNotReady(v) < p { FirstNotReadyIs(u, FirstNotReady(v)); }
  }

  lemma {:induction false} SndReadied(c: seq<Mbuf>, v: seq<Buf>, sndptr: Mbuf?, off: nat, snd: nat, p: nat, e: nat)
    requires |c| == |v| && SndOk(c, v, sndptr, off, snd) && p <= e <= |v| && FirstNotReady(v) <= p
    ensures SndOk(c, Readied(v, p, e), sndptr, off, snd) && (sndptr != null ==> snd <= p)
  {
    FirstReadied(v, p, e);
    ReadiedTotal(v, p, e);
  }

  lemma {:induction false} ReadiedBooks(v: seq<Buf>, p: nat, e: nat, ccc: nat, acc: nat, ctl: nat, mbcnt: nat)
    requires BooksOk(v, ccc, acc, ctl, mbcnt) && p <= e <= |v| && FirstNotReady(v) <= p
    ensures Total(Readied(v, p, e)) == Sums(ccc, ctl, mbcnt)
    ensures FirstNotReady(v) < p ==> BooksOk(Readied(v, p, e), ccc, acc, ctl, mbcnt)
                                     && FirstNotReady(Readied(v, p, e)) == FirstNotReady(v)
    ensures FirstNotReady(v) == p ==> acc + (Before(v, e) - Before(v, p)) == Before(Readied(v, p, e), e)
  {
    FirstReadied(v, p, e);
    ReadiedTotal(v, p, e);
  }

  lemma {:induction false} BooksParts(v: seq<Buf>, ccc: nat, acc: nat, ctl: nat, mbcnt: nat)
    requires BooksOk(v, ccc, acc, ctl, mbcnt)
    ensures Total(v) == Sums(ccc, ctl, mbcnt) && acc == Before(v, FirstNotReady(v))
  {
  }

  lemma {:induction false} AllReadyBelow(v: seq<Buf>, p: nat, e: nat)
    requires p <= e <= |v| && FirstNotReady(v) == p
    ensures forall i :: 0 <= i < e ==> !Readied(v, p, e)[i].notReady
  {
  }

  lemma {:induction false} UnblockedFacts(v: seq<Buf>, p: nat, e: nat)
    requires p <= e <= |v| && FirstNotReady(v) == p
    ensures var u := Readied(v, p, e);
            && Total(u) == Total(v) && Before(u, e) == Before(v, e) && e <= FirstNotReady(u)
            && (forall i :: 0 <= i < e ==> !u[i].notReady)
  {
    ReadiedTotal(v, p, e);
    FirstReadied(v, p, e);
    AllReadyBelow(v, p, e);
  }

  lemma {:induction false} RangeAll(u: seq<Buf>, p: nat)
    ensures RangeOk(u, p, FirstNotReady(u))
  {
  }

  lemma {:induction false} BooksFrom(v: seq<Buf>, ccc: nat, acc: nat, ctl: nat, mbcnt: nat)
    requires Total(v) == Sums(ccc, ctl, mbcnt) && acc == Available(v)
    ensures BooksOk(v, ccc, acc, ctl, mbcnt)
  {
  }

  ghost predicate RangeOk(v: seq<Buf>, p: nat, e: nat) { forall i :: p <= i < e && i < |v| ==> !v[i].notReady }

  lemma {:induction false} NoneReadied(v: seq<Buf>, p: nat)
    requires p <= |v|
    ensures Readied(v, p, p) == v
  {
  }

  lemma {:induction false} RangeReady(v: seq<Buf>, p: nat, e: nat)
    requires p <= e <= |v|
    ensures RangeOk(Readied(v, p, e), p, e)
  {
  }

  /** With bytes still to go within what is available, position j is in front of the first
      mbuf that is not ready. */
  lemma {:induction false} SndStep(v: seq<Buf>, j: nat, len: nat)
    requires j < |v| && j <= FirstNotReady(v) && 0 < len && Before(v, j) + len <= Available(v)
    ensures j < FirstNotReady(v) && Before(v, j + 1) == Before(v, j) + |v[j].data|
  {
    BeforeNext(v, j);
  }

  /** Position moff from the start of mbuf k is byte off of the queue. */
  ghost predicate Denotes(v: seq<Buf>, k: nat, moff: nat, off: nat) { k <= |v| && Before(v, k) + moff == off }

  /** Whatever mbuf and offset denote byte off, the bytes from there on are the queue's from
      off on: the cached position and the walk from the first mbuf give the same suffix. */
  lemma {:induction false} DenotesSuffix(v: seq<Buf>, k: nat, moff: nat, off: nat)
    requires Denotes(v, k, moff, off) && off <= Total(v).len
    ensures moff <= |Cells(v[k..])| && off <= |Cells(v)| && Cells(v[k..])[moff..] == Cells(v)[off..]
  {
    CellsSplit(v, k);
    CellsLength(v);
    assert (Cells(v[..k]) + Cells(v[k..]))[off..] == Cells(v[k..])[moff..];
  }

  class Sockbuf {
    var mb: Mbuf?
    var mbtail: Mbuf?
    var lastrecord: Mbuf?
    var fnrdy: Mbuf?
    var sndptr: Mbuf?
    var sndptroff: nat
    var ccc: nat
    var acc: nat
    var ctl: nat
    var mbcnt: nat
    var noCoalesce: bool
    ghost var chain: seq<Mbuf>
    ghost var view: seq<Buf>
    ghost var snd: nat

    constructor (noCoalesce: bool)
      ensures Valid() && chain == []
    {
      mb, mbtail, lastrecord, fnrdy, sndptr := null, null, null, null, null;
      sndptroff, ccc, acc, ctl, mbcnt := 0, 0, 0, 0, 0;
      this.noCoalesce := noCoalesce;
      chain, view, snd := [], [], 0;
    }

    /** Totals, first not-ready mbuf and send pointer are right for the chain c holding v. */
    ghost predicate Accounted(c: seq<Mbuf>, v: seq<Buf>)
      requires |c| == |v|
      reads this`ccc, this`acc, this`ctl, this`mbcnt, this`fnrdy, this`sndptr, this`sndptroff, this`snd
    {
      && BooksOk(v, ccc, acc, ctl, mbcnt) && fnrdy == At(c, FirstNotReady(v))
      && SndOk(c, v, sndptr, sndptroff, snd)
    }

    /** Chain, accounts and tail pointer agree. */
    ghost predicate Core()
      reads this`mb, this`mbtail, this`chain, this`view, chain
      reads this`ccc, this`acc, this`ctl, this`mbcnt, this`fnrdy, this`sndptr, this`sndptroff, this`snd
    {
      && Linked(chain, mb) && Shows(chain, view) && Accounted(chain, view)
      && mbtail == if chain == [] then null else chain[|chain| - 1]
    }

    /** A stream buffer holds one record, which is also the last. */
    ghost predicate Valid()
      reads this, chain
    {
      Core() && lastrecord == mb
    }

    /** The byte queue. */
    ghost function Contents(): seq<Cell>
      reads this
    {
      Cells(view)
    }

    // ---- Freeing ----

    /** After a not-ready head goes, what follows up to the next not-ready mbuf is available. */
    method NextReady(first: Mbuf?, ghost c: seq<Mbuf>, ghost v: seq<Buf>)
      requires Linked(c, first) && Shows(c, v) && acc == 0
      modifies this`acc, this`fnrdy
      ensures acc == Available(v) && fnrdy == At(c, FirstNotReady(v))
    {
      ghost var j := 0;
      var n := first;
      assert Before(v, 0) == 0;
      hide Before, FirstNotReady, Distinct;
      while n != null && !n.notReady
        invariant 0 <= j <= |v| && n == At(c, j) && acc == Before(v, j)
        invariant forall i :: 0 <= i < j ==> !v[i].notReady
        decreases |v| - j
      {
        BeforeNext(v, j);
        acc := acc + |n.data|;
        n := n.next;
        j := j + 1;
      }
      FirstNotReadyIs(v, j);
      fnrdy := n;
    }

    /** Take the head of the chain c out of the accounts. */
    method Sbfree(m: Mbuf, ghost c: seq<Mbuf>, ghost v: seq<Buf>)
      requires Linked(c, m) && Shows(c, v) && Accounted(c, v)
      modifies this`ccc, this`acc, this`ctl, this`mbcnt, this`fnrdy, this`sndptr, this`sndptroff, this`snd
      ensures Accounted(c[1..], v[1..])
    {
      hide Linked, Shows, BooksOk, FirstNotReady, SndOk;
      SbfreeTotals(m, c, v);
      SbfreeSnd(m, c, v);
    }

    method SbfreeTotals(m: Mbuf, ghost c: seq<Mbuf>, ghost v: seq<Buf>)
      requires Linked(c, m) && Shows(c, v) && BooksOk(v, ccc, acc, ctl, mbcnt) && fnrdy == At(c, FirstNotReady(v))
      modifies this`ccc, this`acc, this`ctl, this`mbcnt, this`fnrdy
      ensures BooksOk(v[1..], ccc, acc, ctl, mbcnt) && fnrdy == At(c[1..], FirstNotReady(v[1..]))
    {
      ChainTail(c, v, m);
      BooksPop(v, ccc, acc, ctl, mbcnt);
      if !v[0].notReady { FirstNotReadyPop(v); }
      assert m == fnrdy <==> v[0].notReady;
      hide BooksOk, Before, FirstNotReady, Linked, Shows;
      ccc := ccc - |m.data|;
      if m == fnrdy {
        NextReady(m.next, c[1..], v[1..]);
      } else {
        acc := acc - |m.data|;
      }
      if m.kind.Control? { ctl := ctl - |m.data|; }
      mbcnt := mbcnt - MSIZE - m.ext;
    }

    method SbfreeSnd(m: Mbuf, ghost c: seq<Mbuf>, ghost v: seq<Buf>)
      requires Linked(c, m) && Shows(c, v) && SndOk(c, v, sndptr, sndptroff, snd)
      modifies this`sndptr, this`sndptroff, this`snd
      ensures SndOk(c[1..], v[1..], sndptr, sndptroff, snd)
    {
      ChainTail(c, v, m);
      assert sndptr != null ==> (sndptr == m <==> snd == 0);
      if sndptr != null { SndPop(v, snd); }
      hide Before, FirstNotReady, Linked, Shows;
      if sndptr == m {
        sndptr := null;
        sndptroff := 0;
      }
      if sndptroff != 0 { sndptroff := sndptroff - |m.data|; }
      snd := if snd == 0 then 0 else snd - 1;
    }

    // ---- Cutting ----

    /** The head leaves the buffer; unless kept for its outside owner it joins the free list. */
    method DropHead(m: Mbuf, keep: bool, free0: Mbuf?, ghost freed0: seq<Mbuf>, ghost c: seq<Mbuf>, ghost v: seq<Buf>)
      returns (next: Mbuf?, mfree: Mbuf?, ghost freed: seq<Mbuf>)
      requires Linked(c, m) && Shows(c, v) && Accounted(c, v) && Linked(freed0, free0) && Apart(freed0, c)
      modifies this`ccc, this`acc, this`ctl, this`mbcnt, this`fnrdy, this`sndptr, this`sndptroff, this`snd, m`next
      ensures Linked(c[1..], next) && Shows(c[1..], v[1..]) && Accounted(c[1..], v[1..])
      ensures Linked(freed, mfree) && Apart(freed, c[1..]) && freed == if keep then freed0 else [m] + freed0
    {
      Sbfree(m, c, v);
      ChainTail(c, v, m);
      hide Accounted;
      next, mfree, freed := m.next, free0, freed0;
      assert m in c && m !in freed0;
      if !keep {
        m.next := free0;
        mfree, freed := m, [m] + freed0;
        LinkFront(m, freed0);
        assert Linked(c[1..], next) && Shows(c[1..], v[1..]);
      }
    }

    /** The first len bytes of a longer, ready head go. */
    method TrimHead(m: Mbuf, len: nat, ghost c: seq<Mbuf>, ghost v: seq<Buf>)
      requires Linked(c, m) && Shows(c, v) && Accounted(c, v) && 0 < len < |m.data| && !m.notReady
      modifies this`ccc, this`acc, this`ctl, this`sndptroff, m`data
      ensures Linked(c, m) && v != [] && len <= |v[0].data| && Shows(c, Trimmed(v, len))
      ensures Accounted(c, Trimmed(v, len))
    {
      ChainTail(c, v, m);
      TrimTotals(m.kind, len, c, v);
      hide Accounted;
      m.data := m.data[len..];
    }

    method TrimTotals(kind: Kind, len: nat, ghost c: seq<Mbuf>, ghost v: seq<Buf>)
      requires |c| == |v| && v != [] && Accounted(c, v) && 0 < len < |v[0].data| && !v[0].notReady && v[0].kind == kind
      modifies this`ccc, this`acc, this`ctl, this`sndptroff
      ensures Accounted(c, Trimmed(v, len))
    {
      BooksTrim(v, len, ccc, acc, ctl, mbcnt);
      TrimmedReady(v, len);
      if sndptr != null { SndTrim(v, len, snd); }
      hide BooksOk, Before, FirstNotReady;
      ccc := ccc - len;
      acc := acc - len;
      if sndptroff != 0 { sndptroff := sndptroff - len; }
      if kind.Control? { ctl := ctl - len; }
    }

    /** In the middle of a cut: the first k mbufs of c0 are out, the chain from m still holds v. */
    ghost predicate Cutting(m: Mbuf?, mfree: Mbuf?, freed: seq<Mbuf>, c0: seq<Mbuf>, v0: seq<Buf>, k: nat, v: seq<Buf>)
      reads this, c0, freed
    {
      && k <= |c0| == |v0| && Distinct(c0) && |v| == |c0| - k
      && Linked(c0[k..], m) && Shows(c0[k..], v) && Accounted(c0[k..], v)
      && Linked(freed, mfree) && Apart(freed, c0[k..]) && FreeOk(freed, c0, v0, k)
    }

    /** One more mbuf goes. */
    method CutOne(m: Mbuf, keep: bool, free0: Mbuf?, ghost freed0: seq<Mbuf>,
                  ghost c0: seq<Mbuf>, ghost v0: seq<Buf>, ghost k: nat, ghost v: seq<Buf>)
      returns (next: Mbuf?, mfree: Mbuf?, ghost freed: seq<Mbuf>)
      requires Cutting(m, free0, freed0, c0, v0, k, v) && v != [] && v == v0[k..]
      requires if keep then v[0].notReady else !v[0].notReady || v[0].data == []
      modifies this`ccc, this`acc, this`ctl, this`mbcnt, this`fnrdy, this`sndptr, this`sndptroff, this`snd, m`next
      ensures Cutting(next, mfree, freed, c0, v0, k + 1, v[1..])
    {
      ghost var c := c0[k..];
      ChainTail(c, v, m);
      hide Linked, Shows, Accounted, Apart, FreeOk, Distinct;
      next, mfree, freed := DropHead(m, keep, free0, freed0, c, v);
      FreeStep(freed0, c0, v0, k, freed);
      assert c[1..] == c0[k + 1..];
    }

    method CutNextMbuf(m: Mbuf, len1: nat, free0: Mbuf?, ghost freed0: seq<Mbuf>,
                       ghost len0: nat, ghost c0: seq<Mbuf>, ghost v0: seq<Buf>, ghost k: nat, ghost v: seq<Buf>)
      returns (len: nat, next: Mbuf?, mfree: Mbuf?, ghost freed: seq<Mbuf>)
      requires Cutting(m, free0, freed0, c0, v0, k, v) && ToCut(len0, v0, k, v, len1)
      requires v != [] && v[0] == m.Value() && |m.data| <= len1
      modifies this`ccc, this`acc, this`ctl, this`mbcnt, this`fnrdy, this`sndptr, this`sndptroff, this`snd, m`next
      ensures Cutting(next, mfree, freed, c0, v0, k + 1, v[1..]) && ToCut(len0, v0, k + 1, v[1..], len)
    {
      hide Cutting, ToCut;
      CutNext(len0, v0, k, v, len1);
      len := len1 - |m.data|;
      next, mfree, freed := CutOne(m, m.notReady, free0, freed0, c0, v0, k, v);
    }

    /** The mbufs that the cut takes whole. */
    method CutWhole(len0: nat, ghost c0: seq<Mbuf>, ghost v0: seq<Buf>)
      returns (m: Mbuf?, len: nat, mfree: Mbuf?, ghost k: nat, ghost v: seq<Buf>, ghost freed: seq<Mbuf>)
      requires Cutting(mb, null, [], c0, v0, 0, v0) && len0 <= Total(v0).len && CutOk(v0, len0)
      modifies this`ccc, this`acc, this`ctl, this`mbcnt, this`fnrdy, this`sndptr, this`sndptroff, this`snd, c0
      ensures Cutting(m, mfree, freed, c0, v0, k, v) && ToCut(len0, v0, k, v, len)
      ensures len > 0 ==> m != null && v != [] && v[0] == m.Value() && len < |m.data|
    {
      m, mfree, k, v, freed, len := mb, null, 0, v0, [], len0;
      CutStarts(c0, v0);
      assert ToCut(len0, v0, 0, v0, len0);
      hide Cutting, ToCut;
      while len > 0
        invariant ToCut(len0, v0, k, v, len) && Cutting(m, mfree, freed, c0, v0, k, v)
        decreases |v|
      {
        SomeLeft(len0, v0, k, v, len);
        CuttingHead(m, mfree, freed, c0, v0, k, v);
        if |m.data| > len { return; }
        len, m, mfree, freed := CutNextMbuf(m, len, mfree, freed, len0, c0, v0, k, v);
        v, k := v[1..], k + 1;
      }
    }

    /** The whole mbufs, and the part of the mbuf the cut ends in. */
    method CutBytes(len0: nat, ghost c0: seq<Mbuf>, ghost v0: seq<Buf>)
      returns (m: Mbuf?, mfree: Mbuf?, ghost k: nat, ghost v: seq<Buf>, ghost freed: seq<Mbuf>)
      requires Cutting(mb, null, [], c0, v0, 0, v0) && len0 <= Total(v0).len && CutOk(v0, len0)
      modifies this`ccc, this`acc, this`ctl, this`mbcnt, this`fnrdy, this`sndptr, this`sndptroff, this`snd, c0
      ensures Cutting(m, mfree, freed, c0, v0, k, v)
      ensures Rest(Cells(v0), len0, Cells(v)) && UpTo(v0, k, v)
    {
      hide Cutting, Total, Cells, CutOk, Rest;
      var len;
      m, len, mfree, k, v, freed := CutWhole(len0, c0, v0);
      if len > 0 {
        CuttingHead(m, mfree, freed, c0, v0, k, v);
        CutInside(v, len);
        RestRest(Cells(v0), len0 - len, Cells(v), len, Cells(Trimmed(v, len)));
        CutPart(m, len, mfree, freed, c0, v0, k, v);
        v := Trimmed(v, len);
      }
    }

    /** Empty mbufs at the new head go as well. */
    method CutEmpties(first: Mbuf?, free0: Mbuf?, ghost freed0: seq<Mbuf>,
                      ghost c0: seq<Mbuf>, ghost v0: seq<Buf>, ghost k0: nat, ghost w0: seq<Buf>)
      returns (m: Mbuf?, mfree: Mbuf?, ghost k: nat, ghost v: seq<Buf>, ghost freed: seq<Mbuf>)
      requires Cutting(first, free0, freed0, c0, v0, k0, w0) && UpTo(v0, k0, w0)
      modifies this`ccc, this`acc, this`ctl, this`mbcnt, this`fnrdy, this`sndptr, this`sndptroff, this`snd, c0
      ensures Cutting(m, mfree, freed, c0, v0, k, v) && Cells(v) == Cells(w0) && UpTo(v0, k, v)
      ensures v == [] || v[0].data != []
    {
      m, mfree, k, v, freed := first, free0, k0, w0, freed0;
      hide Cutting, UpTo, Cells;
      while m != null && m.data == []
        invariant Cutting(m, mfree, freed, c0, v0, k, v) && UpTo(v0, k, v) && Cells(v) == Cells(w0)
        decreases |v|
      {
        CuttingNull(m, mfree, freed, c0, v0, k, v);
        CuttingHead(m, mfree, freed, c0, v0, k, v);
        DropEmpty(v0, k, v);
        m, mfree, freed := CutOne(m, false, mfree, freed, c0, v0, k, v);
        v, k := v[1..], k + 1;
      }
      CuttingNull(m, mfree, freed, c0, v0, k, v);
      if v != [] { CuttingHead(m, mfree, freed, c0, v0, k, v); }
    }

    lemma {:induction false} CuttingNull(m: Mbuf?, mfree: Mbuf?, freed: seq<Mbuf>, c0: seq<Mbuf>, v0: seq<Buf>, k: nat,
                                         v: seq<Buf>)
      requires Cutting(m, mfree, freed, c0, v0, k, v)
      ensures m == null <==> v == []
    {
    }

    lemma {:induction false} ReadyToCut()
      requires Valid()
      ensures Cutting(mb, null, [], chain, view, 0, view) && ccc == Total(view).len
      ensures mbtail == if chain == [] then null else chain[|chain| - 1]
    {
      CutStarts(chain, view);
      assert chain[0..] == chain;
    }

    /** Cut len bytes from the front. The mbufs to release come back as a list. */
    method Cut(len: nat) returns (mfree: Mbuf?, ghost freed: seq<Mbuf>, ghost k: nat)
      requires Valid() && len <= ccc && CutOk(view, len)
      modifies this, chain
      ensures Valid() && Rest(old(Contents()), len, Contents())
      ensures |view| == |chain| && (view == [] || view[0].data != []) && UpTo(old(view), k, view)
      ensures k <= |old(chain)| == |old(view)| && chain == old(chain)[k..] && noCoalesce == old(noCoalesce)
      ensures Linked(freed, mfree) && Apart(freed, chain) && FreeOk(freed, old(chain), old(view), k)
    {
      hide Linked, Apart, FreeOk, Cells, Rest, CutOk, Cutting, Valid, Total, UpTo;
      ghost var c0, v0 := chain, view;
      ReadyToCut();
      var m;
      ghost var v;
      m, mfree, k, v, freed := CutBytes(len, c0, v0);
      m, mfree, k, v, freed := CutEmpties(m, mfree, freed, c0, v0, k, v);
      Finish(m, mfree, freed, c0, v0, k, v);
    }

    /** The new head, and the pointers to the last record and mbuf. */
    method Finish(m: Mbuf?, mfree: Mbuf?, ghost freed: seq<Mbuf>,
                  ghost c0: seq<Mbuf>, ghost v0: seq<Buf>, ghost k: nat, ghost v: seq<Buf>)
      requires Cutting(m, mfree, freed, c0, v0, k, v) && mbtail == if c0 == [] then null else c0[|c0| - 1]
      modifies this`mb, this`mbtail, this`lastrecord, this`chain, this`view
      ensures Valid() && view == v && |view| == |chain| && k <= |c0| == |v0| && chain == c0[k..]
      ensures Linked(freed, mfree) && Apart(freed, chain) && FreeOk(freed, c0, v0, k)
    {
      hide Shows, Apart, FreeOk, Distinct, BooksOk, SndOk, UpTo;
      CuttingNull(m, mfree, freed, c0, v0, k, v);
      mb := m;
      if mb == null {
        mbtail := null;
        lastrecord := null;
      } else {
        lastrecord := m;
      }
      chain, view := c0[k..], v;
    }

    method CutPart(m: Mbuf, len: nat, mfree: Mbuf?, ghost freed: seq<Mbuf>,
                   ghost c0: seq<Mbuf>, ghost v0: seq<Buf>, ghost k: nat, ghost v: seq<Buf>)
      requires Cutting(m, mfree, freed, c0, v0, k, v) && v != [] && 0 < len < |v[0].data| && !v[0].notReady
      modifies this`ccc, this`acc, this`ctl, this`sndptroff, m`data
      ensures Cutting(m, mfree, freed, c0, v0, k, Trimmed(v, len))
    {
      ghost var c := c0[k..];
      ChainTail(c, v, m);
      assert m !in freed by { assert m in c; }
      hide Shows, Accounted, Apart, FreeOk, Distinct, Linked;
      TrimHead(m, len, c, v);
    }

    lemma {:induction false} CuttingHead(m: Mbuf?, mfree: Mbuf?, freed: seq<Mbuf>, c0: seq<Mbuf>, v0: seq<Buf>, k: nat,
                                         v: seq<Buf>)
      requires Cutting(m, mfree, freed, c0, v0, k, v) && v != []
      ensures m != null && m in c0 && v[0] == m.Value()
    {
      ChainTail(c0[k..], v, c0[k]);
    }

    // ---- Flushing ----

    /** Everything goes, and every field is back to empty. */
    method Flush()
      requires Valid()
      modifies this, chain
      ensures Valid() && chain == [] && Emptied() && noCoalesce == old(noCoalesce)
    {
      hide Valid, Total, Cells, CutOk;
      while mbcnt != 0
        invariant Valid() && (forall i :: 0 <= i < |chain| ==> chain[i] in old(chain)) && noCoalesce == old(noCoalesce)
        decreases |chain|
      {
        CanFlush();
        if ccc == 0 && (mb == null || mb.data != []) { break; }
        var mfree;
        ghost var freed, k;
        mfree, freed, k := Cut(ccc);
        AllCut(view);
      }
      IsFlushed();
    }

    ghost predicate Emptied()
      reads this
    {
      && mb == null && mbtail == null && lastrecord == null && fnrdy == null && sndptr == null && sndptroff == 0
      && ccc == 0 && acc == 0 && ctl == 0 && mbcnt == 0
    }

    /** A buffer with mbufs in it can be cut at its full length, and the guard against cutting
        nothing forever does not strike. */
    lemma {:induction false} CanFlush()
      requires Valid() && mbcnt != 0
      ensures chain != [] && CutOk(view, ccc) && ccc == |Cells(view)|
      ensures !(ccc == 0 && (mb == null || mb.data != []))
    {
      CountIsPositive(view);
      CellsLength(view);
      WholeCut(view);
      assert mb == chain[0] && view[0] == mb.Value();
      FirstBefore(view);
    }

    lemma {:induction false} IsFlushed()
      requires Valid() && mbcnt == 0
      ensures chain == [] && Emptied()
    {
      CountIsPositive(view);
      assert view[..0] == [];
    }

    // ---- Appending ----

    /** Put the accounts right for b at the tail; b is m, whose end-of-record mark does not count. */
    method Sballoc(m: Mbuf, ghost b: Buf, ghost c: seq<Mbuf>, ghost v: seq<Buf>)
      requires |c| == |v| && Accounted(c, v) && b.(eor := m.eor) == m.Value()
      modifies this`ccc, this`acc, this`ctl, this`mbcnt, this`fnrdy
      ensures Accounted(c + [m], v + [b])
    {
      SndPush(c, v, sndptr, sndptroff, snd, m, b);
      FirstNotReadyPush(v, b);
      BooksPush(v, b, ccc, acc, ctl, mbcnt);
      hide BooksOk, FirstNotReady, SndOk;
      ccc := ccc + |m.data|;
      if fnrdy == null {
        if m.notReady { fnrdy := m; } else { acc := acc + |m.data|; }
      }
      if m.kind.Control? { ctl := ctl + |m.data|; }
      mbcnt := mbcnt + MSIZE + m.ext;
    }

    method AttachTail(m: Mbuf, ghost v: seq<Buf>)
      requires Linked(chain, mb) && Shows(chain, v)
      requires m !in chain && mbtail == if chain == [] then null else chain[|chain| - 1]
      modifies this`mb, this`mbtail, chain`next, m`next, m`eor
      ensures Linked(chain + [m], mb) && Shows(chain + [m], v + [old(m.Value()).(eor := false)]) && mbtail == m
    {
      ghost var c := chain;
      if mbtail != null { mbtail.next := m; } else { mb := m; }
      mbtail := m;
      m.eor := false;
      m.next := null;
      ShowsPush(c, v, m, m.Value());
      ghost var d := c + [m];
      assert forall i :: 0 <= i < |c| - 1 ==> c[i].next == At(c, i + 1);
      assert forall i :: 0 <= i < |d| ==> d[i].next == At(d, i + 1);
    }

    /** m joins the chain at its tail. */
    method LinkTail(m: Mbuf) returns (next: Mbuf?)
      requires Core() && m !in chain
      modifies this`mb, this`mbtail, this`chain, this`view, this`ccc, this`acc, this`ctl, this`mbcnt, this`fnrdy
      modifies chain`next, m`next, m`eor
      ensures Core() && chain == old(chain) + [m] && view == old(view) + [old(m.Value()).(eor := false)]
      ensures next == old(m.next)
    {
      hide Core, Accounted, Linked, Shows;
      CoreParts();
      ghost var b := m.Value().(eor := false);
      Sballoc(m, b, chain, view);
      next := m.next;
      AttachTail(m, view);
      chain, view := chain + [m], view + [b];
      MakeCore();
    }

    lemma {:induction false} CoreParts()
      requires Core()
      ensures |chain| == |view| && Linked(chain, mb) && Shows(chain, view) && Accounted(chain, view)
      ensures mbtail == if chain == [] then null else chain[|chain| - 1]
    {
    }

    lemma {:induction false} MakeCore()
      requires |chain| == |view| && Linked(chain, mb) && Shows(chain, view) && Accounted(chain, view)
      requires mbtail == if chain == [] then null else chain[|chain| - 1]
      ensures Core()
    {
    }

    /** The bytes of m go into the free space of the last mbuf. */
    method MergeTail(n: Mbuf, m: Mbuf)
      requires Core() && mbtail == n && m != n && !n.notReady && !m.notReady && n.kind == m.kind
      requires |m.data| <= n.room
      modifies this`view, this`ccc, this`acc, this`ctl, n`data, n`room
      ensures Core() && |view| == |chain| > 0 && chain == old(chain)
      ensures view == old(view)[|chain| - 1 := Grown(old(n.Value()), m.data)]
    {
      hide Core, Accounted, Linked;
      CoreParts();
      ghost var k, b := |chain| - 1, Grown(n.Value(), m.data);
      GrowTotals(|m.data|, m.kind, chain, view, b);
      LastOnly(chain, mb);
      n.data := n.data + m.data;
      n.room := n.room - |m.data|;
      view := view[k := b];
      MakeCore();
    }

    method GrowTotals(len: nat, kind: Kind, ghost c: seq<Mbuf>, ghost v: seq<Buf>, ghost b: Buf)
      requires |c| == |v| && v != [] && Accounted(c, v)
      requires var a := v[|v| - 1];
               && |b.data| == |a.data| + len && b.notReady == a.notReady && b.kind == a.kind == kind && b.ext == a.ext
               && !b.notReady
      modifies this`ccc, this`acc, this`ctl
      ensures Accounted(c, v[|v| - 1 := b])
    {
      ghost var k := |v| - 1;
      SndGrow(c, v, sndptr, sndptroff, snd, b);
      BooksGrow(v, b, len, ccc, acc, ctl, mbcnt);
      hide BooksOk, FirstNotReady, SndOk;
      ccc := ccc + len;
      if fnrdy == null { acc := acc + len; }
      if kind.Control? { ctl := ctl + len; }
    }

    method SetEor(n: Mbuf)
      requires Core() && n == mbtail
      modifies this`view, n`eor
      ensures Core() && |view| == |chain| > 0 && view == old(view)[|chain| - 1 := old(n.Value()).(eor := true)]
    {
      hide Core, Accounted, Linked;
      CoreParts();
      ghost var k, b := |chain| - 1, n.Value().(eor := true);
      EorFree(chain, view, b);
      LastOnly(chain, mb);
      n.eor := true;
      view := view[k := b];
      MakeCore();
    }

    /** An end-of-record mark weighs nothing. */
    lemma {:induction false} EorFree(c: seq<Mbuf>, v: seq<Buf>, b: Buf)
      requires |c| == |v| && v != [] && Accounted(c, v) && b == v[|v| - 1].(eor := true)
      ensures Accounted(c, v[|v| - 1 := b]) && Cells(v[|v| - 1 := b]) == Cells(v)
    {
      var k := |v| - 1;
      var u := v[k := b];
      SndGrow(c, v, sndptr, sndptroff, snd, b);
      SameWeights(v, u);
      SameWeights(v[..FirstNotReady(v)], u[..FirstNotReady(v)]);
      assert v == v[..k] + [v[k]] && u == v[..k] + [b];
      CellsConcat(v[..k], [v[k]]);
      CellsConcat(v[..k], [b]);
      CellsOne(v[k]);
      CellsOne(b);
      assert BufCells(b) == BufCells(v[k]);
    }

    /** The chain from m, holding w, is still to be appended; in the end the queue is q. */
    ghost predicate Appending(m: Mbuf?, rest: seq<Mbuf>, w: seq<Buf>, q: seq<Cell>)
      reads this, chain, rest
    {
      Core() && Linked(rest, m) && Shows(rest, w) && Apart(rest, chain) && Cells(view) + Cells(w) == q
    }

    lemma {:induction false} AppendHead(m: Mbuf, rest: seq<Mbuf>, w: seq<Buf>, q: seq<Cell>)
      requires Appending(m, rest, w, q)
      ensures rest != [] && w != [] && rest[0] == m && w[0] == m.Value() && m !in rest[1..] && m !in chain
      ensures Linked(rest[1..], m.next) && Shows(rest[1..], w[1..]) && Apart(rest[1..], chain)
      ensures Cells(view) + BufCells(w[0]) + Cells(w[1..]) == q
      ensures mbtail != null ==> mbtail in chain && mbtail !in rest
      ensures Core()
    {
      ChainTail(rest, w, m);
      assert m in rest;
      assert Cells(view) + BufCells(w[0]) + Cells(w[1..]) == Cells(view) + (BufCells(w[0]) + Cells(w[1..]));
    }

    lemma {:induction false} MakeAppending(m: Mbuf?, rest: seq<Mbuf>, w: seq<Buf>, q: seq<Cell>)
      requires Core() && Linked(rest, m) && Shows(rest, w) && Apart(rest, chain) && Cells(view) + Cells(w) == q
      ensures Appending(m, rest, w, q)
    {
    }

    method AppendLink(m: Mbuf, ghost rest: seq<Mbuf>, ghost w: seq<Buf>, ghost q: seq<Cell>) returns (next: Mbuf?)
      requires Appending(m, rest, w, q)
      modifies this`mb, this`mbtail, this`chain, this`view, this`ccc, this`acc, this`ctl, this`mbcnt, this`fnrdy
      modifies chain`next, m`next, m`eor
      ensures rest != [] && w != [] && Appending(next, rest[1..], w[1..], q) && next == old(m.next)
      ensures chain == old(chain) + [m] && mbtail == m && Grows(old(view), view)
      ensures (m.data != [] ==> Full(old(view), view))
    {
      hide Core, Linked, Shows, Cells, BufCells, Appending;
      AppendHead(m, rest, w, q);
      PushCells(view, w[0]);
      ghost var tail, c := rest[1..], chain;
      assert forall i :: 0 <= i < |tail| ==> tail[i] in tail && tail[i] !in c && tail[i] != m;
      next := LinkTail(m);
      assert Linked(tail, next) && Shows(tail, w[1..]);
      CoreParts();
      MakeAppending(next, tail, w[1..], q);
    }

    method AppendMerge(n: Mbuf, m: Mbuf, ghost rest: seq<Mbuf>, ghost w: seq<Buf>, ghost q: seq<Cell>)
      requires Appending(m, rest, w, q) && mbtail == n && !n.notReady && !m.notReady && n.kind == m.kind
      requires |m.data| <= n.room
      modifies this`view, this`ccc, this`acc, this`ctl, n`data, n`room
      ensures rest != [] && w != [] && Appending(m.next, rest[1..], w[1..], q) && chain == old(chain)
      ensures Grows(old(view), view) && Full(old(view), view)
    {
      hide Core, Linked, Shows, Cells, BufCells, Appending, Apart;
      AppendHead(m, rest, w, q);
      TailValue();
      GrowCells(view, w[0]);
      ghost var tail := rest[1..];
      MergeTail(n, m);
      assert Linked(tail, m.next) && Shows(tail, w[1..]);
      MakeAppending(m.next, tail, w[1..], q);
    }

    lemma {:induction false} TailValue()
      requires Core() && mbtail != null
      ensures |view| == |chain| > 0 && view[|view| - 1] == mbtail.Value()
    {
    }

    predicate Coalesces(n: Mbuf, m: Mbuf)
      reads this, n, m
    {
      && !n.eor && n.writable && !noCoalesce && !m.notReady && !n.notReady
      && |m.data| <= MCLBYTES / 4 && |m.data| <= n.room && n.kind == m.kind
    }

    /** One turn of the loop: m is dropped, merged into the tail n, or linked behind it. */
    method AppendOne(m: Mbuf, n: Mbuf?, eor: bool, ghost rest: seq<Mbuf>, ghost w: seq<Buf>, ghost q: seq<Cell>)
      returns (next: Mbuf?, tail: Mbuf?)
      requires Appending(m, rest, w, q) && n == mbtail
      modifies this`mb, this`mbtail, this`chain, this`view, this`ccc, this`acc, this`ctl, this`mbcnt, this`fnrdy
      modifies chain, m
      ensures rest != [] && w != [] && Appending(next, rest[1..], w[1..], q) && next == old(m.next) && tail == mbtail
      ensures (chain == old(chain) || chain == old(chain) + [m]) && Grows(old(view), view)
      ensures (!eor ==> Full(old(view), view))
      ensures tail != null || (next == null ==> !eor)
    {
      hide Appending, Core, Linked, Shows, Cells, BufCells, Apart;
      AppendHead(m, rest, w, q);
      var o := if m.next != null then m.next else n;
      next, tail := m.next, n;
      if m.data == [] && (!eor || (o != null && o.kind == m.kind)) {
        SkipCells(view, w);
        MakeAppending(next, rest[1..], w[1..], q);
      } else if n != null && Coalesces(n, m) {
        AppendMerge(n, m, rest, w, q);
      } else {
        next := AppendLink(m, rest, w, q);
        tail := m;
      }
    }

    /** In the middle of appending the chain rest0: the buffer held c0 and v0 at first. */
    ghost predicate Compressing(m: Mbuf?, rest: seq<Mbuf>, w: seq<Buf>, q: seq<Cell>, c0: seq<Mbuf>, v0: seq<Buf>,
                                rest0: seq<Mbuf>)
      reads this, chain, rest
    {
      Appending(m, rest, w, q) && Joined(c0, v0, chain, view, rest0) && forall i :: 0 <= i < |rest| ==> rest[i] in rest0
    }

    lemma {:induction false} CompressFrame(m: Mbuf?, rest: seq<Mbuf>, w: seq<Buf>, q: seq<Cell>, c0: seq<Mbuf>,
                                           v0: seq<Buf>, rest0: seq<Mbuf>)
      requires Compressing(m, rest, w, q, c0, v0, rest0)
      ensures (m != null ==> m in rest0) && forall i :: 0 <= i < |chain| ==> chain[i] in c0 || chain[i] in rest0
    {
      hide Core, Shows, Cells, BufCells, Grows;
    }

    lemma {:induction false} CompressStarts(m0: Mbuf?, rest0: seq<Mbuf>, w0: seq<Buf>)
      requires Core() && Linked(rest0, m0) && Shows(rest0, w0) && Apart(rest0, chain)
      ensures Compressing(m0, rest0, w0, Cells(view) + Cells(w0), chain, view, rest0)
    {
      hide Core, Linked, Shows, Apart, Cells;
    }

    method CompressTurn(m: Mbuf, n: Mbuf?, eor0: bool, ghost rest: seq<Mbuf>, ghost w: seq<Buf>, ghost q: seq<Cell>,
                        ghost c0: seq<Mbuf>, ghost v0: seq<Buf>, ghost rest0: seq<Mbuf>)
      returns (next: Mbuf?, tail: Mbuf?, eor: bool)
      requires Compressing(m, rest, w, q, c0, v0, rest0) && n == mbtail && (!eor0 ==> Full(v0, view))
      modifies this`mb, this`mbtail, this`chain, this`view, this`ccc, this`acc, this`ctl, this`mbcnt, this`fnrdy
      modifies chain, m
      ensures rest != [] && w != [] && Compressing(next, rest[1..], w[1..], q, c0, v0, rest0) && tail == mbtail
      ensures (eor0 || AnyEor(w) <==> eor || AnyEor(w[1..])) && (next == null && eor ==> tail != null)
      ensures (!eor ==> Full(v0, view))
    {
      hide Appending, Core, Linked, Shows, Cells, BufCells, Apart, AnyEor, Joined, Grows, Full;
      AppendHead(m, rest, w, q);
      EorTail(w);
      eor := eor0 || m.eor;
      ghost var c, v := chain, view;
      next, tail := AppendOne(m, n, eor, rest, w, q);
      JoinedGrows(c0, v0, c, v, rest0);
      JoinedOn(c0, v0, c, v, m, chain, view, rest0);
      if !eor { FullOn(v0, v, view); }
    }

    /** Append the chain from m0: empty mbufs are dropped, small ones copied into the tail, the
        rest linked; an end-of-record mark among them ends up on the last mbuf. */
    method Sbcompress(m0: Mbuf?, ghost rest0: seq<Mbuf>, ghost w0: seq<Buf>)
      requires Core() && Linked(rest0, m0) && Shows(rest0, w0) && Apart(rest0, chain)
      modifies this`mb, this`mbtail, this`chain, this`view, this`ccc, this`acc, this`ctl, this`mbcnt, this`fnrdy
      modifies chain, rest0
      ensures Core() && Cells(view) == old(Cells(view)) + Cells(w0)
      ensures Joined(old(chain), old(view), chain, view, rest0)
      ensures if AnyEor(w0) then view != [] && view[|view| - 1].eor else Full(old(view), view)
    {
      hide Compressing, Core, Linked, Shows, Cells, BufCells, Apart, AnyEor, Joined, Grows;
      var m, n, eor := m0, mbtail, false;
      ghost var rest, w, q := rest0, w0, Cells(view) + Cells(w0);
      ghost var c0, v0 := chain, view;
      CompressStarts(m0, rest0, w0);
      while m != null
        invariant Compressing(m, rest, w, q, c0, v0, rest0) && n == mbtail
        invariant (AnyEor(w0) <==> eor || AnyEor(w)) && (m == null && eor ==> n != null) && (!eor ==> Full(v0, view))
        invariant forall i :: 0 <= i < |chain| ==> chain[i] in c0 || chain[i] in rest0
        decreases |rest|
      {
        CompressFrame(m, rest, w, q, c0, v0, rest0);
        m, n, eor := CompressTurn(m, n, eor, rest, w, q, c0, v0, rest0);
        rest, w := rest[1..], w[1..];
        CompressFrame(m, rest, w, q, c0, v0, rest0);
      }
      AppendDone(rest, w, q, c0, v0, rest0);
      if eor { MarkLast(n, c0, v0, rest0); }
    }

    /** The end-of-record mark goes on the last mbuf. */
    method MarkLast(n: Mbuf, ghost c0: seq<Mbuf>, ghost v0: seq<Buf>, ghost from: seq<Mbuf>)
      requires Core() && n == mbtail && Joined(c0, v0, chain, view, from)
      modifies this`view, n`eor
      ensures Core() && Cells(view) == old(Cells(view)) && Joined(c0, v0, chain, view, from) && view != []
      ensures view[|view| - 1].eor
    {
      hide Core, Cells, Grows;
      TailValue();
      EorFreeTail();
      ghost var u := view;
      SetEor(n);
      MarkGrows(v0, u, view);
    }

    lemma {:induction false} MarkGrows(v: seq<Buf>, u: seq<Buf>, w: seq<Buf>)
      requires Grows(v, u) && u != [] && w == u[|u| - 1 := u[|u| - 1].(eor := true)]
      ensures Grows(v, w)
    {
    }

    lemma {:induction false} AppendDone(rest: seq<Mbuf>, w: seq<Buf>, q: seq<Cell>, c0: seq<Mbuf>, v0: seq<Buf>,
                                        rest0: seq<Mbuf>)
      requires Compressing(null, rest, w, q, c0, v0, rest0)
      ensures Core() && Cells(view) == q && !AnyEor(w) && Joined(c0, v0, chain, view, rest0)
    {
    }

    lemma {:induction false} EorFreeTail()
      requires Core() && mbtail != null
      ensures |view| > 0 && Cells(view[|view| - 1 := mbtail.Value().(eor := true)]) == Cells(view)
    {
      CoreParts();
      TailValue();
      EorFree(chain, view, mbtail.Value().(eor := true));
    }

    /** Strip flags that have no place in a stream buffer; only an append of data still being
        produced may keep the not-ready mark. */
    method Demote(m0: Mbuf?, keepNotReady: bool, ghost rest: seq<Mbuf>, ghost w: seq<Buf>)
      requires Linked(rest, m0) && Shows(rest, w)
      modifies rest`notReady, rest`eor
      ensures Shows(rest, Demoted(w, keepNotReady))
    {
      var m := m0;
      ghost var k := 0;
      hide Distinct;
      while m != null
        invariant 0 <= k <= |rest| && m == At(rest, k)
        invariant forall i :: 0 <= i < k ==> rest[i].Value() == Demoted(w, keepNotReady)[i]
        invariant forall i :: k <= i < |rest| ==> rest[i].Value() == w[i]
        decreases |rest| - k
      {
        DistinctAt(rest, m0, k);
        m.eor := false;
        m.notReady := m.notReady && keepNotReady;
        m := m.next;
        k := k + 1;
      }
    }

    /** Append to a stream: the queue grows by exactly the bytes of the chain. */
    method AppendStream(m: Mbuf?, keepNotReady: bool, ghost rest: seq<Mbuf>, ghost w: seq<Buf>)
      requires Valid() && Linked(rest, m) && Shows(rest, w) && Apart(rest, chain)
      modifies this, chain, rest
      ensures Valid() && Contents() == old(Contents()) + Cells(Demoted(w, keepNotReady))
      ensures Grows(old(view), view) && Full(old(view), view)
      ensures old(chain) <= chain && forall i :: |old(chain)| <= i < |chain| ==> chain[i] in rest
    {
      hide Core, Shows, Linked, Cells, Demoted, Grows, Full, AnyEor;
      DemotedPlain(w, keepNotReady);
      assert forall i :: 0 <= i < |chain| ==> chain[i] in chain && chain[i] !in rest;
      Demote(m, keepNotReady, rest, w);
      Sbcompress(m, rest, Demoted(w, keepNotReady));
      lastrecord := mb;
    }

    // ---- Becoming ready ----

    method ClearMark(m: Mbuf, blocker: bool, ghost c: seq<Mbuf>, ghost p: nat, ghost k: nat, ghost v: seq<Buf>)
      returns (next: Mbuf?)
      requires Linked(c, At(c, 0)) && |v| == |c| && p <= k < |c| && c[k] == m
      requires Shows(c, Readied(v, p, k))
      modifies this`acc, m`notReady
      ensures Shows(c, Readied(v, p, k + 1)) && next == At(c, k + 1)
      ensures acc == old(acc) + if blocker then |v[k].data| else 0
    {
      DistinctAt(c, c[0], k);
      next := m.next;
      hide Linked, Readied;
      assert m.Value() == v[k];
      m.notReady := false;
      if blocker { acc := acc + |m.data|; }
    }

    /** The loop that clears the not-ready marks. */
    method ClearMarks(m0: Mbuf, count: nat, blocker: bool, ghost c: seq<Mbuf>, ghost p: nat, ghost v: seq<Buf>)
      returns (m: Mbuf?)
      requires Linked(c, At(c, 0)) && |v| == |c| && Shows(c, v) && p + count <= |c| && 0 < count && c[p] == m0
      modifies this`acc, c`notReady
      ensures Shows(c, Readied(v, p, p + count)) && m == At(c, p + count)
      ensures acc == old(acc) + if blocker then Before(v, p + count) - Before(v, p) else 0
    {
      m := m0;
      var left := count;
      ghost var k := p;
      hide Linked, Shows, Before, Readied;
      NoneReadied(v, p);
      while left > 0
        invariant p <= k <= p + count && left == p + count - k && m == At(c, k)
        invariant Linked(c, At(c, 0)) && Shows(c, Readied(v, p, k))
        invariant acc == old(acc) + if blocker then Before(v, k) - Before(v, p) else 0
      {
        BeforeNext(v, k);
        left := left - 1;
        m := ClearMark(m, blocker, c, p, k, v);
        k := k + 1;
      }
    }

    /** The queue's blocker is gone: what is ready behind it is available too. */
    method Unblock(first: Mbuf?, ghost j0: nat, ghost v: seq<Buf>)
      requires Linked(chain, mb) && Shows(chain, v) && j0 <= |chain| && first == At(chain, j0)
      requires acc == Before(v, j0) && forall i :: 0 <= i < j0 ==> !v[i].notReady
      modifies this`acc, this`fnrdy
      ensures acc == Available(v) && fnrdy == At(chain, FirstNotReady(v))
    {
      var m := first;
      ghost var j := j0;
      hide Distinct, Before, FirstNotReady;
      while m != null && !m.notReady
        invariant j0 <= j <= |v| && m == At(chain, j) && acc == Before(v, j)
        invariant forall i :: 0 <= i < j ==> !v[i].notReady
        decreases |v| - j
      {
        BeforeNext(v, j);
        acc := acc + |m.data|;
        m := m.next;
        j := j + 1;
      }
      FirstNotReadyIs(v, j);
      fnrdy := m;
    }

    /** n's bytes go into m's free space and n leaves the chain. */
    method FoldNext(m: Mbuf, n: Mbuf, ghost k: nat)
      requires Core() && k + 1 < |chain| == |view| && chain[k] == m && chain[k + 1] == n
      requires !m.notReady && !n.notReady && m.kind == n.kind && |n.data| <= m.room && (sndptr != null ==> snd <= k)
      modifies this`mbtail, this`chain, this`view, this`mbcnt, m`data, m`room, m`eor, m`next
      ensures Core() && chain == Removed(old(chain), k + 1) && view == Folded(old(view), k) && m.next == old(n.next)
    {
      hide Core, Accounted, Linked, Shows, Folded;
      CoreParts();
      ghost var c, v := chain, view;
      HoldsAt(c, v, k);
      HoldsAt(c, v, k + 1);
      FoldedAccounted(c, v, k);
      Absorb(m, n, k, c, v);
      mbcnt := mbcnt - MSIZE - n.ext;
      chain, view := Removed(c, k + 1), Folded(v, k);
      MakeCore();
    }

    /** The list surgery of a fold. */
    method Absorb(m: Mbuf, n: Mbuf, ghost k: nat, ghost c: seq<Mbuf>, ghost v: seq<Buf>)
      requires Linked(c, mb) && Shows(c, v) && k + 1 < |c| && c[k] == m && c[k + 1] == n && |n.data| <= m.room
      requires mbtail == c[|c| - 1]
      modifies this`mbtail, m`data, m`room, m`eor, m`next
      ensures Linked(Removed(c, k + 1), mb) && Shows(Removed(c, k + 1), Folded(v, k)) && m.next == old(n.next)
      ensures mbtail == Removed(c, k + 1)[|c| - 2]
    {
      DistinctAt(c, mb, k);
      DistinctAt(c, mb, k + 1);
      ghost var d := Removed(c, k + 1);
      m.data := m.data + n.data;
      m.room := m.room - |n.data|;
      m.next := n.next;
      m.eor := m.eor || n.eor;
      if mbtail == n { mbtail := m; }
      RemovedLinked(c, k, mb);
      FoldedShows(c, v, k);
    }

    /** Totals, first not-ready mbuf and send pointer after a fold. */
    lemma {:induction false} FoldedAccounted(c: seq<Mbuf>, v: seq<Buf>, k: nat)
      requires k + 1 < |c| == |v| && Accounted(c, v) && (sndptr != null ==> snd <= k)
      requires !v[k].notReady && !v[k + 1].notReady && v[k].kind == v[k + 1].kind
      ensures mbcnt >= MSIZE + v[k + 1].ext
      ensures |Folded(v, k)| == |Removed(c, k + 1)|
      ensures BooksOk(Folded(v, k), ccc, acc, ctl, mbcnt - MSIZE - v[k + 1].ext)
      ensures SndOk(Removed(c, k + 1), Folded(v, k), sndptr, sndptroff, snd)
      ensures fnrdy == At(Removed(c, k + 1), FirstNotReady(Folded(v, k)))
    {
      BooksFolded(v, k, ccc, acc, ctl, mbcnt);
      FirstNotReadyFolded(v, k);
      if sndptr != null { assert Folded(v, k)[..snd] == v[..snd]; }
      hide BooksOk, FirstNotReady, Before;
    }

    /** The mbufs from m, at position k, up to end, at position e, are ready and may be folded;
        the send pointer is not behind m, and the queue stays q. */
    ghost predicate Folding(m: Mbuf?, end: Mbuf?, k: nat, e: nat, q: seq<Cell>)
      reads this, chain
    {
      && Core() && k <= e <= |chain| == |view| && m == At(chain, k) && end == At(chain, e) && Cells(view) == q
      && (forall i :: k <= i < e ==> !view[i].notReady) && (sndptr != null ==> snd <= k)
    }

    predicate Absorbs(m: Mbuf, n: Mbuf)
      reads m, n
    {
      !m.eor && m.writable && |n.data| <= MCLBYTES / 4 && |n.data| <= m.room && m.kind == n.kind
    }

    lemma {:induction false} FoldingAt(m: Mbuf?, end: Mbuf?, k: nat, e: nat, q: seq<Cell>)
      requires Folding(m, end, k, e, q) && m != end
      ensures m != null && k < e <= |chain| && chain[k] == m && m.next == At(chain, k + 1) && !m.notReady && m in chain
      ensures m.next != null && m.next != end ==>
                k + 1 < e && chain[k + 1] == m.next && !m.next.notReady
    {
      assert k != e;
      assert chain[k].next == At(chain, k + 1) && view[k] == chain[k].Value();
      if k + 1 < e { assert view[k + 1] == chain[k + 1].Value(); }
    }

    lemma {:induction false} FoldingNext(m: Mbuf, end: Mbuf?, k: nat, e: nat, q: seq<Cell>)
      requires Folding(m, end, k, e, q) && m != end
      ensures Folding(m.next, end, k + 1, e, q)
    {
      FoldingAt(m, end, k, e, q);
    }

    /** One fold of the inner loop. */
    method FoldOne(m: Mbuf, n: Mbuf, end: Mbuf?, ghost k: nat, ghost e: nat, ghost q: seq<Cell>)
      requires Folding(m, end, k, e, q) && m != end && m.next == n && n != end && Absorbs(m, n)
      modifies this`mbtail, this`chain, this`view, this`mbcnt, m
      ensures k < e && Folding(m, end, k, e - 1, q) && chain == Removed(old(chain), k + 1)
    {
      hide Core, Cells, Folding, Folded;
      FoldingAt(m, end, k, e, q);
      FoldingParts(m, end, k, e, q);
      CellsFolded(view, k);
      FoldedRange(chain, view, k, e);
      FoldNext(m, n, k);
      MakeFolding(m, end, k, e - 1, q);
    }

    lemma {:induction false} FoldingParts(m: Mbuf?, end: Mbuf?, k: nat, e: nat, q: seq<Cell>)
      requires Folding(m, end, k, e, q)
      ensures Core() && k <= e <= |chain| == |view| && m == At(chain, k) && end == At(chain, e) && Cells(view) == q
      ensures (forall i :: k <= i < e ==> !view[i].notReady) && (sndptr != null ==> snd <= k)
      ensures forall i :: k <= i < e ==> view[i] == chain[i].Value()
    {
    }

    lemma {:induction false} MakeFolding(m: Mbuf?, end: Mbuf?, k: nat, e: nat, q: seq<Cell>)
      requires Core() && k <= e <= |chain| == |view| && m == At(chain, k) && end == At(chain, e) && Cells(view) == q
      requires (forall i :: k <= i < e ==> !view[i].notReady) && (sndptr != null ==> snd <= k)
      ensures Folding(m, end, k, e, q)
    {
    }

    /** Fold into m what follows it, as long as it fits. */
    method FoldAll(m: Mbuf, end: Mbuf?, ghost k: nat, ghost e0: nat, ghost q: seq<Cell>) returns (ghost e: nat)
      requires Folding(m, end, k, e0, q) && m != end
      modifies this`mbtail, this`chain, this`view, this`mbcnt, m
      ensures Folding(m, end, k, e, q) && k < |chain| <= |old(chain)| && k < |old(chain)|
      ensures chain[..k] == old(chain)[..k]
      ensures forall i :: 0 <= i < |chain| ==> chain[i] in old(chain)
    {
      hide Folding, Cells, Core;
      e := e0;
      ghost var c0 := chain;
      FoldingAt(m, end, k, e, q);
      var n := m.next;
      while n != null && n != end && Absorbs(m, n)
        invariant Folding(m, end, k, e, q) && n == m.next && k < |chain| <= |c0| && chain[..k] == c0[..k]
        invariant forall i :: 0 <= i < |chain| ==> chain[i] in c0
        decreases |chain|
      {
        FoldingAt(m, end, k, e, q);
        FoldOne(m, n, end, k, e, q);
        n := m.next;
        e := e - 1;
        FoldingAt(m, end, k, e, q);
      }
    }

    /** Fold small mbufs that have just become ready into their predecessors. */
    method ReadyCompress(m0: Mbuf?, end: Mbuf?, ghost p: nat, ghost e0: nat)
      requires Folding(m0, end, p, e0, Cells(view))
      modifies this`mbtail, this`chain, this`view, this`mbcnt, chain
      ensures Core() && Cells(view) == old(Cells(view))
      ensures |chain| <= |old(chain)| && p <= |chain| && p <= |old(chain)| && chain[..p] == old(chain)[..p]
    {
      hide Folding, Cells, Core;
      FoldingCore(m0, end, p, e0, Cells(view));
      if noCoalesce { return; }
      var m := m0;
      ghost var k: nat, e: nat, q, c0 := p, e0, Cells(view), chain;
      while m != end
        invariant Folding(m, end, k, e, q) && p <= k <= |chain| <= |c0| && chain[..p] == c0[..p]
        invariant forall i :: 0 <= i < |chain| ==> chain[i] in c0
        decreases |chain| - k
      {
        FoldingAt(m, end, k, e, q);
        ghost var c := chain;
        e := FoldAll(m, end, k, e, q);
        assert chain[..p] == chain[..k][..p] == c[..k][..p] == c[..p];
        FoldingNext(m, end, k, e, q);
        m := m.next;
        k := k + 1;
      }
      FoldingCore(m, end, k, e, q);
    }

    lemma {:induction false} FoldingCore(m: Mbuf?, end: Mbuf?, k: nat, e: nat, q: seq<Cell>)
      requires Folding(m, end, k, e, q)
      ensures Core() && Cells(view) == q && k <= e <= |chain|
    {
    }

    /** Marks cleared from a blocker: the totals catch up with everything now ready. */
    method Unblocked(m0: Mbuf, m: Mbuf?, ghost p: nat, ghost e: nat, ghost u: seq<Buf>)
      requires |chain| == |u| && p < e <= |u| && chain[p] == m0 && m == At(chain, e)
      requires Linked(chain, mb) && Shows(chain, u) && mbtail == chain[|chain| - 1]
      requires Total(u) == Sums(ccc, ctl, mbcnt) && acc == Before(u, e)
      requires SndOk(chain, u, sndptr, sndptroff, snd) && (sndptr != null ==> snd <= p)
      requires (forall i :: 0 <= i < e ==> !u[i].notReady) && e <= FirstNotReady(u)
      modifies this`acc, this`fnrdy, this`view
      ensures Folding(m0, fnrdy, p, FirstNotReady(u), Cells(u)) && view == u
    {
      hide Linked, Shows, Cells, Folding, Total, Before, SndOk, FirstNotReady, RangeOk, Available, BooksOk;
      Unblock(m, e, u);
      view := u;
      BooksFrom(u, ccc, acc, ctl, mbcnt);
      RangeAll(u, p);
      FoldingFrom(m0, fnrdy, p, FirstNotReady(u));
    }

    /** Marks cleared behind a blocker: only the chain has changed. */
    ghost method StillBlocked(m0: Mbuf, m: Mbuf?, p: nat, e: nat, v: seq<Buf>)
      requires |chain| == |v| && p < e <= |v| && chain[p] == m0 && m == At(chain, e) && FirstNotReady(v) < p
      requires Linked(chain, mb) && Shows(chain, Readied(v, p, e)) && Accounted(chain, v)
      requires mbtail == chain[|chain| - 1]
      modifies this`view
      ensures Folding(m0, m, p, e, Cells(view)) && view == Readied(v, p, e)
    {
      hide Linked, Shows, Cells, Readied, Folding, BooksOk, Before, SndOk, FirstNotReady, RangeOk;
      var u := Readied(v, p, e);
      SndReadied(chain, v, sndptr, sndptroff, snd, p, e);
      ReadiedBooks(v, p, e, ccc, acc, ctl, mbcnt);
      RangeReady(v, p, e);
      view := u;
      FoldingFrom(m0, m, p, e);
    }

    lemma {:induction false} FoldingFrom(m: Mbuf?, end: Mbuf?, p: nat, e: nat)
      requires |chain| == |view| && Linked(chain, mb) && Shows(chain, view) && chain != []
      requires mbtail == chain[|chain| - 1] && p <= e <= |chain| && m == At(chain, p) && end == At(chain, e)
      requires BooksOk(view, ccc, acc, ctl, mbcnt) && fnrdy == At(chain, FirstNotReady(view))
      requires SndOk(chain, view, sndptr, sndptroff, snd) && (sndptr != null ==> snd <= p)
      requires RangeOk(view, p, e)
      ensures Folding(m, end, p, e, Cells(view))
    {
    }

    /** Clear the marks and let the totals follow; what may now be folded ends at end. */
    method MarkReady(m0: Mbuf, count: nat, ghost p: nat) returns (unblocked: bool, end: Mbuf?, ghost e: nat)
      requires Core() && 0 < count && p + count <= |chain| == |view| && chain[p] == m0
      requires forall i :: p <= i < p + count ==> view[i].notReady
      modifies this`acc, this`fnrdy, this`view, chain`notReady
      ensures Folding(m0, end, p, e, Cells(view)) && p + count <= |old(view)|
      ensures view == Readied(old(view), p, p + count)
      ensures unblocked <==> old(fnrdy) == m0
    {
      hide Core, Linked, Shows, Cells, Folding, Readied, SndOk, Before, BooksOk, FirstNotReady;
      CoreParts();
      Blocks(chain, view, mb, p);
      ghost var v := view;
      BooksParts(v, ccc, acc, ctl, mbcnt);
      unblocked := fnrdy == m0;
      if unblocked {
        UnblockedFacts(v, p, p + count);
        SndReadied(chain, v, sndptr, sndptroff, snd, p, p + count);
      }
      end := ClearMarks(m0, count, unblocked, chain, p, v);
      if unblocked {
        Unblocked(m0, end, p, p + count, Readied(v, p, p + count));
        end, e := fnrdy, FirstNotReady(Readied(v, p, p + count));
      } else {
        StillBlocked(m0, end, p, p + count, v);
        e := p + count;
      }
    }

    /** Mark count mbufs ready, from m0 at position p. Unblocked is the result 0: the readers can
        go on; otherwise an earlier mbuf still holds them up. */
    method Ready(m0: Mbuf, count: nat, ghost p: nat) returns (unblocked: bool)
      requires Valid() && 0 < count && p + count <= |chain| == |view| && chain[p] == m0
      requires forall i :: p <= i < p + count ==> view[i].notReady
      modifies this, chain
      ensures Valid() && |old(view)| >= p + count
      ensures Contents() == MarkCells(old(Contents()), Before(old(view), p), Before(old(view), p + count))
      ensures unblocked <==> old(fnrdy) == m0
    {
      hide Core, Cells, Folding, Readied, Before, MarkCells;
      CellsReadied(view, p, p + count);
      var end;
      ghost var e;
      unblocked, end, e := MarkReady(m0, count, p);
      ReadyCompress(m0, end, p, e);
    }

    // ---- The send pointer ----

    /** Where byte off of the queue is: in m, at position k, moff bytes on. A buffer without a
        send pointer gets one at its start. */
    method SndptrNoadv(off: nat) returns (m: Mbuf, moff: nat, ghost k: nat)
      requires Valid() && mb != null
      modifies this`sndptr, this`sndptroff, this`snd
      ensures Valid() && k < |chain| == |view| && chain[k] == m && Denotes(view, k, moff, off)
      ensures sndptr != null && sndptroff == old(sndptroff)
      ensures old(sndptr) != null ==> sndptr == old(sndptr)
    {
      CoreParts();
      assert chain != [] && mb == chain[0] && Before(view, 0) == 0;
      hide Linked, Shows, BooksOk, Before, FirstNotReady;
      if sndptr == null || sndptroff > off {
        m, moff, k := mb, off, 0;
        if sndptr == null {
          sndptr, sndptroff := mb, 0;
          snd := 0;
        }
      } else {
        m, moff, k := sndptr, off - sndptroff, snd;
      }
    }

    /** Move the send pointer over whole mbufs, at most len0 bytes and never off the chain. */
    method SndptrAdv(mbp: Mbuf?, len0: nat)
      requires Valid() && (sndptr != null && mbp == sndptr ==> sndptroff + len0 <= acc)
      modifies this`sndptr, this`sndptroff, this`snd
      ensures Valid()
      ensures mbp != old(sndptr) || mbp == null ==> sndptr == old(sndptr) && sndptroff == old(sndptroff)
      ensures mbp == old(sndptr) && mbp != null ==>
                && sndptr != null && old(sndptroff) <= sndptroff <= old(sndptroff) + len0
                && (sndptroff == old(sndptroff) + len0 || sndptr == mbtail
                    || old(sndptroff) + len0 < sndptroff + |sndptr.data|)
    {
      if mbp != sndptr || mbp == null { return; }
      var m: Mbuf?, len := mbp, len0;
      ghost var j, target, stopped := snd, sndptroff + len0, false;
      hide Core;
      while m != null && len > 0
        invariant Core() && j <= |chain| && sndptr != null && old(sndptroff) <= sndptroff <= target
        invariant m == null ==> sndptr == mbtail
        invariant m != null && !stopped ==> sndptr == m && snd == j && sndptroff + len == target <= acc
        invariant stopped ==> len == 0 && target < sndptroff + |sndptr.data|
        decreases len, |chain| - j
      {
        if len >= |m.data| {
          len := len - |m.data|;
          m := Advance(m, len + |m.data|);
          j := j + 1;
        } else {
          len := 0;
          stopped := true;
        }
      }
    }

    /** One whole mbuf forward, unless m is the last. */
    lemma {:induction false} SndptrAt(m: Mbuf, len: nat)
      requires Core() && sndptr == m && 0 < len && |m.data| <= len && sndptroff + len <= acc
      ensures snd < |chain| == |view| && m.next == At(chain, snd + 1) && view[snd] == m.Value()
      ensures snd < FirstNotReady(view) && Before(view, snd + 1) == Before(view, snd) + |m.data|
    {
      SndStep(view, snd, len);
    }

    method Advance(m: Mbuf, len: nat) returns (next: Mbuf?)
      requires Core() && sndptr == m && 0 < len && |m.data| <= len && sndptroff + len <= acc
      modifies this`sndptr, this`sndptroff, this`snd
      ensures Core() && old(snd) < |chain| && sndptr != null
      ensures next == null ==> sndptr == mbtail && sndptroff == old(sndptroff)
      ensures next != null ==> sndptr == next && snd == old(snd) + 1 && sndptroff == old(sndptroff) + |m.data|
    {
      hide Core, Linked, Shows, BooksOk, FirstNotReady, Before;
      CoreParts();
      SndptrAt(m, len);
      if m.next != null {
        sndptroff := sndptroff + |m.data|;
        sndptr := m.next;
        snd := snd + 1;
      }
      next := m.next;
      MakeCore();
    }

    /** The mbuf that holds byte off0 of the queue, found from the send pointer. */
    method Sndmbuf(off0: nat) returns (m: Mbuf?, moff: nat, ghost k: nat)
      requires Valid() && mb != null
      ensures k <= |chain| == |view| && m == At(chain, k) && Denotes(view, k, moff, off0)
      ensures m != null && moff > 0 ==> moff < |m.data|
    {
      CoreParts();
      assert chain != [] && mb == chain[0] && Before(view, 0) == 0;
      if sndptr == null || sndptroff > off0 {
        m, moff, k := mb, off0, 0;
      } else {
        m, moff, k := sndptr, off0 - sndptroff, snd;
      }
      hide BooksOk, Before, FirstNotReady, Distinct;
      while moff > 0 && m != null
        invariant k <= |chain| && m == At(chain, k) && Denotes(view, k, moff, off0)
        decreases |chain| - k
      {
        if moff < |m.data| { break; }
        BeforeNext(view, k);
        moff := moff - |m.data|;
        m := m.next;
        k := k + 1;
      }
    }
  }
}

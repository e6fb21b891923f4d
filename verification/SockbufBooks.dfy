/** How the running totals of a socket buffer follow each change of its chain. */
module SockbufBooks {
  import opened Basics
  import opened SockbufValues

  /** sb_ccc, sb_acc, sb_ctl and sb_mbcnt agree with the chain. */
  ghost predicate BooksOk(v: seq<Buf>, ccc: nat, acc: nat, ctl: nat, mbcnt: nat) {
    Total(v) == Sums(ccc, ctl, mbcnt) && acc == Available(v)
  }

  // ---- At the tail ----

  lemma {:induction false} FirstNotReadyPush(v: seq<Buf>, b: Buf)
    ensures FirstNotReady(v + [b]) == if FirstNotReady(v) == |v| && !b.notReady then |v| + 1 else FirstNotReady(v)
  {
    var k := FirstNotReady(v);
    FirstNotReadyIs(v + [b], if k == |v| && !b.notReady then |v| + 1 else k);
  }

  lemma {:induction false} BooksPush(v: seq<Buf>, b: Buf, ccc: nat, acc: nat, ctl: nat, mbcnt: nat)
    requires BooksOk(v, ccc, acc, ctl, mbcnt)
    ensures BooksOk(v + [b], ccc + |b.data|,
                    if FirstNotReady(v) == |v| && !b.notReady then acc + |b.data| else acc,
                    if b.kind.Control? then ctl + |b.data| else ctl, mbcnt + MSIZE + b.ext)
  {
    hide Total, FirstNotReady;
    var u := v + [b];
    var k := FirstNotReady(v);
    FirstNotReadyPush(v, b);
    assert u[..k] == v[..k];
    TotalConcat(v, [b]);
    TotalOne(b);
    if k == |v| {
      assert v[..|v|] == v && u[..|u|] == u;
    }
  }

  /** The last mbuf takes more bytes of its own type. */
  lemma {:induction false} BooksGrow(v: seq<Buf>, b: Buf, n: nat, ccc: nat, acc: nat, ctl: nat, mbcnt: nat)
    requires BooksOk(v, ccc, acc, ctl, mbcnt) && v != []
    requires var a := v[|v| - 1];
             |b.data| == |a.data| + n && b.notReady == a.notReady && b.kind == a.kind && b.ext == a.ext && !b.notReady
    ensures BooksOk(v[|v| - 1 := b], ccc + n, if FirstNotReady(v) == |v| then acc + n else acc,
                    if b.kind.Control? then ctl + n else ctl, mbcnt)
  {
    var k := |v| - 1;
    var u := v[..k];
    assert v == u + [v[k]] && v[k := b] == u + [b];
    TotalConcat(u, [v[k]]);
    TotalConcat(u, [b]);
    TotalOne(v[k]);
    TotalOne(b);
    FirstNotReadyPush(u, v[k]);
    FirstNotReadyPush(u, b);
    var f := FirstNotReady(v);
    assert f < |v| ==> v[..f] == u[..f] == (u + [b])[..f];
    assert f == |v| ==> v[..f] == v && (u + [b])[..f] == u + [b];
  }

  // ---- At the head ----

  lemma {:induction false} FirstNotReadyPop(v: seq<Buf>)
    requires v != [] && !v[0].notReady
    ensures FirstNotReady(v) == 1 + FirstNotReady(v[1..])
  {
  }

  lemma {:induction false} BooksPop(v: seq<Buf>, ccc: nat, acc: nat, ctl: nat, mbcnt: nat)
    requires BooksOk(v, ccc, acc, ctl, mbcnt) && v != []
    ensures ccc >= |v[0].data| && mbcnt >= MSIZE + v[0].ext && (v[0].kind.Control? ==> ctl >= |v[0].data|)
    ensures if v[0].notReady then acc == 0 else acc >= |v[0].data|
    ensures BooksOk(v[1..], ccc - |v[0].data|, if v[0].notReady then Available(v[1..]) else acc - |v[0].data|,
                    if v[0].kind.Control? then ctl - |v[0].data| else ctl, mbcnt - MSIZE - v[0].ext)
  {
    assert v[..0] == [];
    if !v[0].notReady {
      var k := FirstNotReady(v[1..]);
      FirstNotReadyPop(v);
      assert v[..k + 1][1..] == v[1..][..k];
    }
  }

  /** Part of a ready head is cut off. */
  lemma {:induction false} BooksTrim(v: seq<Buf>, n: nat, ccc: nat, acc: nat, ctl: nat, mbcnt: nat)
    requires BooksOk(v, ccc, acc, ctl, mbcnt) && v != [] && n <= |v[0].data| && !v[0].notReady
    ensures ccc >= n && acc >= n && (v[0].kind.Control? ==> ctl >= n)
    ensures BooksOk(v[0 := v[0].(data := v[0].data[n..])], ccc - n, acc - n,
                    if v[0].kind.Control? then ctl - n else ctl, mbcnt)
  {
    var u := v[0 := v[0].(data := v[0].data[n..])];
    assert u[1..] == v[1..];
    var k := FirstNotReady(v[1..]);
    FirstNotReadyPop(v);
    FirstNotReadyPop(u);
    assert v[..k + 1][1..] == v[1..][..k] == u[..k + 1][1..];
  }

  // ---- In the middle ----

  function FoldedBuf(a: Buf, b: Buf): Buf {
    a.(data := a.data + b.data, room := if a.room >= |b.data| then a.room - |b.data| else 0, eor := a.eor || b.eor)
  }

  /** v with mbuf k + 1 folded into mbuf k. */
  function Folded(v: seq<Buf>, k: nat): seq<Buf>
    requires k + 1 < |v|
  {
    v[..k] + [FoldedBuf(v[k], v[k + 1])] + v[k + 2..]
  }

  lemma {:induction false} FoldedParts(v: seq<Buf>, k: nat)
    requires k + 1 < |v|
    ensures v == v[..k] + [v[k]] + [v[k + 1]] + v[k + 2..]
    ensures Folded(v, k) == v[..k] + [FoldedBuf(v[k], v[k + 1])] + v[k + 2..]
  {
  }

  lemma {:induction false} FirstNotReadyFolded(v: seq<Buf>, k: nat)
    requires k + 1 < |v| && !v[k].notReady && !v[k + 1].notReady
    ensures FirstNotReady(Folded(v, k)) == if FirstNotReady(v) < k then FirstNotReady(v) else FirstNotReady(v) - 1
  {
    var f := FirstNotReady(v);
    var u := Folded(v, k);
    assert f != k && f != k + 1;
    assert forall i :: k < i < |u| ==> u[i] == v[i + 1];
    FirstNotReadyIs(u, if f < k then f else f - 1);
  }

  lemma {:induction false} FoldedTotal(v: seq<Buf>, k: nat)
    requires k + 1 < |v| && v[k].kind == v[k + 1].kind
    ensures var t := Total(v); var u := Total(Folded(v, k));
            u.len == t.len && u.ctl == t.ctl && u.cnt + MSIZE + v[k + 1].ext == t.cnt
  {
    hide Total, Folded;
    var a, b, c := v[k], v[k + 1], FoldedBuf(v[k], v[k + 1]);
    var s, t := v[..k], v[k + 2..];
    FoldedParts(v, k);
    TotalThree(s + [a], b, t);
    TotalConcat(s, [a]);
    TotalOne(a);
    TotalThree(s, c, t);
  }

  lemma {:induction false} FoldedBefore(v: seq<Buf>, k: nat, i: nat)
    requires k + 1 < |v| && v[k].kind == v[k + 1].kind && k + 1 < i <= |v|
    ensures Before(Folded(v, k), i - 1) == Before(v, i)
  {
    assert Folded(v, k)[..i - 1] == Folded(v[..i], k);
    FoldedTotal(v[..i], k);
  }

  lemma {:induction false} BooksFolded(v: seq<Buf>, k: nat, ccc: nat, acc: nat, ctl: nat, mbcnt: nat)
    requires BooksOk(v, ccc, acc, ctl, mbcnt) && k + 1 < |v|
    requires v[k].kind == v[k + 1].kind && !v[k].notReady && !v[k + 1].notReady
    ensures mbcnt >= MSIZE + v[k + 1].ext
    ensures BooksOk(Folded(v, k), ccc, acc, ctl, mbcnt - MSIZE - v[k + 1].ext)
  {
    var f := FirstNotReady(v);
    FirstNotReadyFolded(v, k);
    FoldedTotal(v, k);
    if f < k { assert Folded(v, k)[..f] == v[..f]; } else { FoldedBefore(v, k, f); }
  }

  lemma {:induction false} CellsFolded(v: seq<Buf>, k: nat)
    requires k + 1 < |v| && v[k].kind == v[k + 1].kind && v[k].notReady == v[k + 1].notReady
    ensures Cells(Folded(v, k)) == Cells(v)
  {
    hide Cells, Folded, BufCells;
    var a, b, c := v[k], v[k + 1], FoldedBuf(v[k], v[k + 1]);
    var s, t := v[..k], v[k + 2..];
    FoldedParts(v, k);
    CellsMerge(a, b, c);
    CellsThree(s + [a], b, t);
    CellsConcat(s, [a]);
    CellsOne(a);
    CellsThree(s, c, t);
    assert Cells(s) + BufCells(a) + BufCells(b) == Cells(s) + (BufCells(a) + BufCells(b));
  }

  // ---- Becoming ready ----

  /** v with mbufs p to e - 1 marked ready. */
  function Readied(v: seq<Buf>, p: nat, e: nat): (r: seq<Buf>)
    requires p <= e <= |v|
    ensures |r| == |v|
    ensures forall i :: 0 <= i < |v| ==> r[i] == if p <= i < e then v[i].(notReady := false) else v[i]
  {
    if p == e then v else Readied(v, p, e - 1)[e - 1 := v[e - 1].(notReady := false)]
  }

  lemma {:induction false} ReadiedTotal(v: seq<Buf>, p: nat, e: nat)
    requires p <= e <= |v|
    ensures Total(Readied(v, p, e)) == Total(v)
    ensures forall i :: 0 <= i <= |v| ==> Before(Readied(v, p, e), i) == Before(v, i)
  {
    SameWeights(v, Readied(v, p, e));
    forall i | 0 <= i <= |v| ensures Before(Readied(v, p, e), i) == Before(v, i) {
      SameWeights(v[..i], Readied(v, p, e)[..i]);
    }
  }

  lemma {:induction false} SameWeights(v: seq<Buf>, u: seq<Buf>)
    requires |v| == |u| && forall i :: 0 <= i < |v| ==> Weight(v[i]) == Weight(u[i])
    ensures Total(v) == Total(u)
  {
    if v != [] { SameWeights(v[1..], u[1..]); }
  }

  /** The cells from a up to b become ready. */
  function MarkCells(q: seq<Cell>, a: nat, b: nat): (r: seq<Cell>)
    ensures |r| == |q|
    ensures forall i :: 0 <= i < |q| ==> r[i] == if a <= i < b then q[i].(ready := true) else q[i]
  {
    seq(|q|, i requires 0 <= i < |q| => if a <= i < b then q[i].(ready := true) else q[i])
  }

  lemma {:induction false} CellsAt(v: seq<Buf>, k: nat, j: nat)
    requires k < |v| && j < |v[k].data|
    ensures Before(v, k) + j < |Cells(v)| && Cells(v)[Before(v, k) + j] == BufCells(v[k])[j]
  {
    CellsSplit(v, k);
    assert v[k..][0] == v[k];
  }

  /** Every cell belongs to some mbuf. */
  lemma {:induction false} Locate(v: seq<Buf>, i: nat) returns (k: nat, j: nat)
    requires i < Total(v).len
    ensures k < |v| && j < |v[k].data| && i == Before(v, k) + j
  {
    if i < |v[0].data| {
      k, j := 0, i;
      assert v[..0] == [];
    } else {
      k, j := Locate(v[1..], i - |v[0].data|);
      assert v[..k + 1][1..] == v[1..][..k];
      k := k + 1;
    }
  }

  lemma {:induction false} CellReadied(v: seq<Buf>, p: nat, e: nat, i: nat)
    requires p <= e <= |v| && i < |Cells(v)| == |Cells(Readied(v, p, e))|
    ensures Cells(Readied(v, p, e))[i] == MarkCells(Cells(v), Before(v, p), Before(v, e))[i]
  {
    hide Cells, Before, Total, Readied;
    var u := Readied(v, p, e);
    ReadiedTotal(v, p, e);
    CellsLength(v);
    var k, j := Locate(v, i);
    CellsAt(v, k, j);
    CellsAt(u, k, j);
    ReadiedSide(v, p, e, k, j);
  }

  lemma {:induction false} CellsReadied(v: seq<Buf>, p: nat, e: nat)
    requires p <= e <= |v|
    ensures Cells(Readied(v, p, e)) == MarkCells(Cells(v), Before(v, p), Before(v, e))
  {
    var u := Readied(v, p, e);
    ReadiedTotal(v, p, e);
    CellsLength(u);
    CellsLength(v);
    hide Cells, Before, Total, MarkCells;
    forall i | 0 <= i < |Cells(v)| ensures Cells(u)[i] == MarkCells(Cells(v), Before(v, p), Before(v, e))[i] {
      CellReadied(v, p, e, i);
    }
  }

  lemma {:induction false} ReadiedSide(v: seq<Buf>, p: nat, e: nat, k: nat, j: nat)
    requires p <= e <= |v| && k < |v| && j < |v[k].data|
    ensures Before(v, p) <= Before(v, k) + j < Before(v, e) <==> p <= k < e
  {
    BeforeNext(v, k);
    if k < p { BeforeMono(v, k + 1, p); } else { BeforeMono(v, p, k); }
    if k < e { BeforeMono(v, k + 1, e); } else { BeforeMono(v, e, k); }
  }
}

/** What a socket buffer's mbufs hold, as values: sums, readiness and the byte queue. */
module SockbufValues {
  import opened Basics

  /** MT_DATA, MT_OOBDATA, and every type that counts as control. */
  datatype Kind = Data | Oob | Control

  /** One mbuf: its bytes, the free space behind them, its flags and type, and the size of
      its cluster (0 for none). */
  datatype Buf = Buf(data: seq<byte>, room: nat, notReady: bool, eor: bool, kind: Kind, ext: nat)

  /** One byte of the queue. */
  datatype Cell = Cell(b: byte, ready: bool, kind: Kind)

  // ---- Sums ----

  datatype Sums = Sums(len: nat, ctl: nat, cnt: nat)

  function Plus(a: Sums, b: Sums): Sums { Sums(a.len + b.len, a.ctl + b.ctl, a.cnt + b.cnt) }

  function Weight(b: Buf): Sums {
    Sums(|b.data|, if b.kind.Control? then |b.data| else 0, MSIZE + b.ext)
  }

  function Total(s: seq<Buf>): Sums {
    if s == [] then Sums(0, 0, 0) else Plus(Weight(s[0]), Total(s[1..]))
  }

  lemma {:induction false} TotalConcat(s: seq<Buf>, t: seq<Buf>)
    ensures Total(s + t) == Plus(Total(s), Total(t))
  {
    if s == [] { assert s + t == t; } else {
      var u := s + t;
      assert u[1..] == s[1..] + t;
      TotalConcat(s[1..], t);
      assert Total(u) == Plus(Weight(u[0]), Total(u[1..]));
    }
  }

  lemma {:induction false} TotalSplit(s: seq<Buf>, k: nat)
    requires k <= |s|
    ensures Total(s) == Plus(Total(s[..k]), Total(s[k..]))
  {
    TotalConcat(s[..k], s[k..]);
    assert s[..k] + s[k..] == s;
  }

  lemma {:induction false} TotalOne(b: Buf)
    ensures Total([b]) == Weight(b)
  {
    assert [b][1..] == [];
  }

  lemma {:induction false} TotalThree(s: seq<Buf>, b: Buf, t: seq<Buf>)
    ensures Total(s + [b] + t) == Plus(Total(s), Plus(Weight(b), Total(t)))
  {
    hide Total;
    TotalConcat(s + [b], t);
    TotalConcat(s, [b]);
    TotalOne(b);
  }

  /** Bytes in front of position k. */
  function Before(s: seq<Buf>, k: nat): nat
    requires k <= |s|
  {
    Total(s[..k]).len
  }

  lemma {:induction false} BeforeNext(s: seq<Buf>, k: nat)
    requires k < |s|
    ensures Before(s, k + 1) == Before(s, k) + |s[k].data|
  {
    assert s[..k + 1] == s[..k] + [s[k]];
    TotalConcat(s[..k], [s[k]]);
    TotalOne(s[k]);
  }

  lemma {:induction false} BeforeMono(s: seq<Buf>, i: nat, j: nat)
    requires i <= j <= |s|
    ensures Before(s, i) <= Before(s, j) <= Total(s).len
    ensures Before(s, |s|) == Total(s).len
  {
    TotalSplit(s[..j], i);
    assert s[..j][..i] == s[..i];
    TotalSplit(s, j);
    assert s[..|s|] == s;
  }

  lemma {:induction false} CountIsPositive(s: seq<Buf>)
    ensures Total(s).cnt == 0 <==> s == []
  {
  }

  // ---- Readiness ----

  /** Position of the first mbuf that is not ready; the length if there is none. */
  function FirstNotReady(s: seq<Buf>): (k: nat)
    ensures k <= |s|
    ensures forall i :: 0 <= i < k ==> !s[i].notReady
    ensures k < |s| ==> s[k].notReady
  {
    if s == [] || s[0].notReady then 0 else 1 + FirstNotReady(s[1..])
  }

  lemma {:induction false} FirstNotReadyIs(s: seq<Buf>, k: nat)
    requires k <= |s| && (forall i :: 0 <= i < k ==> !s[i].notReady) && (k < |s| ==> s[k].notReady)
    ensures FirstNotReady(s) == k
  {
  }

  /** Bytes available to a reader: those in front of the first mbuf that is not ready. */
  function Available(s: seq<Buf>): nat { Before(s, FirstNotReady(s)) }

  // ---- The byte queue ----

  function BufCells(b: Buf): (r: seq<Cell>)
    ensures |r| == |b.data|
    ensures forall i :: 0 <= i < |r| ==> r[i] == Cell(b.data[i], !b.notReady, b.kind)
  {
    seq(|b.data|, i requires 0 <= i < |b.data| => Cell(b.data[i], !b.notReady, b.kind))
  }

  function Cells(s: seq<Buf>): seq<Cell> {
    if s == [] then [] else BufCells(s[0]) + Cells(s[1..])
  }

  lemma {:induction false} CellsConcat(s: seq<Buf>, t: seq<Buf>)
    ensures Cells(s + t) == Cells(s) + Cells(t)
  {
    if s == [] { assert s + t == t; } else {
      assert (s + t)[1..] == s[1..] + t && (s + t)[0] == s[0];
      hide BufCells;
      CellsConcat(s[1..], t);
      assert BufCells(s[0]) + (Cells(s[1..]) + Cells(t)) == BufCells(s[0]) + Cells(s[1..]) + Cells(t);
    }
  }

  lemma {:induction false} CellsLength(s: seq<Buf>)
    ensures |Cells(s)| == Total(s).len
  {
    if s != [] { CellsLength(s[1..]); }
  }

  lemma {:induction false} CellsOne(b: Buf)
    ensures Cells([b]) == BufCells(b)
  {
    assert [b][1..] == [];
  }

  lemma {:induction false} CellsThree(s: seq<Buf>, b: Buf, t: seq<Buf>)
    ensures Cells(s + [b] + t) == Cells(s) + BufCells(b) + Cells(t)
  {
    hide Cells, BufCells;
    CellsConcat(s + [b], t);
    CellsConcat(s, [b]);
    CellsOne(b);
  }

  lemma {:induction false} CellsSplit(s: seq<Buf>, k: nat)
    requires k <= |s|
    ensures Cells(s) == Cells(s[..k]) + Cells(s[k..]) && |Cells(s[..k])| == Before(s, k)
  {
    CellsConcat(s[..k], s[k..]);
    assert s[..k] + s[k..] == s;
    CellsLength(s[..k]);
  }

  /** Two adjacent buffers of one type and readiness hold the cells of the merged one. */
  lemma {:induction false} CellsMerge(a: Buf, b: Buf, c: Buf)
    requires a.kind == b.kind == c.kind && a.notReady == b.notReady == c.notReady && c.data == a.data + b.data
    ensures BufCells(c) == BufCells(a) + BufCells(b)
  {
  }

  /** The length of the longest ready prefix of the queue. */
  function ReadyPrefix(q: seq<Cell>): nat {
    if q == [] || !q[0].ready then 0 else 1 + ReadyPrefix(q[1..])
  }

  lemma {:induction false} ReadyPrefixSplit(q: seq<Cell>, k: nat)
    requires k <= |q| && (forall i :: 0 <= i < k ==> q[i].ready) && (k < |q| ==> !q[k].ready)
    ensures ReadyPrefix(q) == k
  {
    if k > 0 { ReadyPrefixSplit(q[1..], k - 1); }
  }

  lemma {:induction false} CellsReady(s: seq<Buf>)
    requires forall i :: 0 <= i < |s| ==> !s[i].notReady
    ensures forall i :: 0 <= i < |Cells(s)| ==> Cells(s)[i].ready
  {
    if s != [] { CellsReady(s[1..]); }
  }

  /** No mbuf is both empty and not ready. */
  ghost predicate Solid(s: seq<Buf>) { forall i :: 0 <= i < |s| && s[i].notReady ==> s[i].data != [] }

  /** sb_acc counts the ready prefix of the byte queue, as long as no mbuf is both empty and
      not ready. */
  lemma {:induction false} AvailableIsReadyPrefix(s: seq<Buf>)
    requires Solid(s)
    ensures Available(s) == ReadyPrefix(Cells(s))
  {
    var k := FirstNotReady(s);
    CellsSplit(s, k);
    CellsReady(s[..k]);
    if k < |s| {
      assert s[k..][0] == s[k] && Cells(s[k..])[0] == BufCells(s[k])[0];
    }
    ReadyPrefixSplit(Cells(s), Before(s, k));
  }
}

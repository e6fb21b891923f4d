/** Reading a stream socket buffer: one pass of soreceive_stream_locked. */
module SockbufReceive {
  import opened Basics
  import opened SockbufValues
  import opened SockbufBooks
  import opened SockbufChain

  // ---- The destination ----

  /** One destination: the bytes written to it, and how many more it takes. */
  datatype Iovec = Iovec(filled: seq<byte>, len: nat)

  function Space(iov: seq<Iovec>): nat { if iov == [] then 0 else iov[0].len + Space(iov[1..]) }

  function Filled(iov: seq<Iovec>): seq<byte> { if iov == [] then [] else iov[0].filled + Filled(iov[1..]) }

  lemma {:induction false} SpaceAround(a: seq<Iovec>, b: Iovec, c: seq<Iovec>)
    ensures Space(a + [b] + c) == Space(a) + b.len + Space(c)
    ensures Filled(a + [b] + c) == Filled(a) + b.filled + Filled(c)
  {
    if a == [] {
      assert a + [b] + c == [b] + c && ([b] + c)[1..] == c;
    } else {
      assert (a + [b] + c)[1..] == a[1..] + [b] + c;
      SpaceAround(a[1..], b, c);
    }
  }

  lemma {:induction false} NothingLeft(iov: seq<Iovec>)
    ensures (forall i :: 0 <= i < |iov| ==> iov[i].len == 0) <==> Space(iov) == 0
    ensures (forall i :: 0 <= i < |iov| ==> iov[i].filled == []) ==> Filled(iov) == []
  {
    if iov != [] {
      NothingLeft(iov[1..]);
      if forall i :: 0 <= i < |iov| ==> iov[i].len == 0 {
        forall i | 0 <= i < |iov[1..]| ensures iov[1..][i].len == 0 { assert iov[1..][i] == iov[i + 1]; }
      }
      if Space(iov) == 0 {
        forall i | 0 <= i < |iov| ensures iov[i].len == 0 { assert i > 0 ==> iov[i] == iov[1..][i - 1]; }
      }
      if forall i :: 0 <= i < |iov| ==> iov[i].filled == [] {
        forall i | 0 <= i < |iov[1..]| ensures iov[1..][i].filled == [] { assert iov[1..][i] == iov[i + 1]; }
      }
    }
  }

  /** Vectors before at are full, those behind it untouched. */
  ghost predicate InOrder(iov: seq<Iovec>, at: nat) {
    && at <= |iov| && (forall i :: 0 <= i < at ==> iov[i].len == 0)
    && forall i :: at < i < |iov| ==> iov[i].filled == []
  }

  function Poured(iov: seq<Iovec>, at: nat, d: seq<byte>): seq<Iovec>
    requires at < |iov| && |d| <= iov[at].len
  {
    iov[at := Iovec(iov[at].filled + d, iov[at].len - |d|)]
  }

  lemma {:induction false} PouredIs(iov: seq<Iovec>, at: nat, d: seq<byte>)
    requires InOrder(iov, at) && at < |iov| && |d| <= iov[at].len
    ensures var v := Poured(iov, at, d);
            InOrder(v, at) && Filled(v) == Filled(iov) + d && Space(v) == Space(iov) - |d| && Space(iov) >= |d|
  {
    var a, b, c := iov[..at], iov[at], iov[at + 1..];
    var v := Poured(iov, at, d);
    assert iov == a + [b] + c && v == a + [v[at]] + c;
    SpaceAround(a, b, c);
    SpaceAround(a, v[at], c);
    NothingLeft(c);
    assert Filled(c) == [];
  }

  lemma {:induction false} StepOn(iov: seq<Iovec>, at: nat)
    requires InOrder(iov, at) && at < |iov| && iov[at].len == 0
    ensures InOrder(iov, at + 1)
  {
  }

  const EINVAL := 22
  const EFAULT := 14

  class Uio {
    var iov: seq<Iovec>
    var at: nat
    var resid: nat

    ghost predicate Valid()
      reads this
    {
      InOrder(iov, at)
    }

    /** uiomove towards the vectors. It moves what they still take, even where uio_resid allows more. */
    method Uiomove(d: seq<byte>, n: int) returns (error: int)
      requires Valid() && n <= |d|
      modifies this
      ensures Valid() && error == if n < 0 then EINVAL else if n > old(resid) then EFAULT else 0
      ensures error != 0 ==> iov == old(iov) && at == old(at) && resid == old(resid)
      ensures error == 0 ==> Moved(old(iov), iov, old(resid), resid, d, Min(n, old(Space(iov))))
    {
      if n < 0 { return EINVAL; }
      if n > resid { return EFAULT; }
      hide InOrder, Space, Filled;
      var off: nat := 0;
      ghost var iov0, resid0 := iov, resid;
      assert d[..0] == [] && Filled(iov) + [] == Filled(iov);
      while off < n && at < |iov|
        invariant InOrder(iov, at) && off <= n <= resid0 && Moved(iov0, iov, resid0, resid, d, off)
        decreases |iov| - at, n - off
      {
        var cnt := Min(iov[at].len, n - off);
        if cnt == 0 {
          StepOn(iov, at);
          at := at + 1;
          continue;
        }
        PouredIs(iov, at, d[off..off + cnt]);
        assert d[..off + cnt] == d[..off] + d[off..off + cnt];
        MovedOn(Filled(iov0), d, off, cnt);
        iov := Poured(iov, at, d[off..off + cnt]);
        resid := resid - cnt;
        off := off + cnt;
        if iov[at].len == 0 {
          StepOn(iov, at);
          at := at + 1;
        }
      }
      if off < n { AllFull(iov, at); }
      return 0;
    }
  }

  lemma {:induction false} MovedOn(f: seq<byte>, d: seq<byte>, off: nat, cnt: nat)
    requires off + cnt <= |d|
    ensures f + d[..off] + d[off..off + cnt] == f + d[..off + cnt]
  {
  }

  lemma {:induction false} AllFull(iov: seq<Iovec>, at: nat)
    requires InOrder(iov, at) && at == |iov|
    ensures Space(iov) == 0
  {
    NothingLeft(iov);
  }

  /** The first k bytes of d went into the vectors. */
  ghost predicate Moved(iov: seq<Iovec>, iov': seq<Iovec>, resid: nat, resid': nat, d: seq<byte>, k: nat) {
    && k <= |d| && k <= Space(iov) && Filled(iov') == Filled(iov) + d[..k] && Space(iov') == Space(iov) - k
    && resid' == resid - k
  }

  // ---- Copying out of a chain ----

  /** The bytes of a stretch of the queue. */
  function Plain(q: seq<Cell>): (d: seq<byte>)
    ensures |d| == |q| && forall i :: 0 <= i < |q| ==> d[i] == q[i].b
  {
    seq(|q|, i requires 0 <= i < |q| => q[i].b)
  }

  lemma {:induction false} NextPiece(v: seq<Buf>, j: nat, n: nat)
    requires j < |v| && n <= |v[j].data|
    ensures Before(v, j) + n <= |Cells(v)|
    ensures Plain(Cells(v))[..Before(v, j) + n] == Plain(Cells(v))[..Before(v, j)] + v[j].data[..n]
  {
    CellsSplit(v, j);
    var a, r := Cells(v[..j]), Cells(v[j..][1..]);
    assert Cells(v[j..]) == BufCells(v[j]) + r by { assert v[j..][0] == v[j]; }
    hide Cells, BufCells, Plain;
    PlainConcat(a, BufCells(v[j]) + r);
    PlainConcat(BufCells(v[j]), r);
    PlainOne(v[j]);
    Pieces(Plain(a), v[j].data, Plain(r), n);
    PlainLength(a);
  }

  lemma {:induction false} PlainConcat(a: seq<Cell>, b: seq<Cell>)
    ensures Plain(a + b) == Plain(a) + Plain(b)
  {
  }

  lemma {:induction false} PlainOne(b: Buf)
    ensures Plain(BufCells(b)) == b.data
  {
  }

  lemma {:induction false} PlainLength(a: seq<Cell>)
    ensures |Plain(a)| == |a|
  {
  }

  lemma {:induction false} Pieces(a: seq<byte>, d: seq<byte>, r: seq<byte>, n: nat)
    requires n <= |d|
    ensures (a + (d + r))[..|a| + n] == a + d[..n] && (a + (d + r))[..|a|] == a
  {
  }

  /** Having copied the first k bytes of the queue, at mbuf j. */
  ghost predicate Copying(v: seq<Buf>, j: nat, total: nat, k: nat) {
    j <= |v| && k == Min(total, Before(v, j)) && k <= |Cells(v)|
  }

  lemma {:induction false} CopyPiece(v: seq<Buf>, j: nat, total: nat, k: nat)
    requires Copying(v, j, total, k) && j < |v|
    ensures k <= total
    ensures var n := Min(|v[j].data|, total - k);
            && Copying(v, j + 1, total, k + n)
            && Plain(Cells(v))[..k + n] == Plain(Cells(v))[..k] + v[j].data[..n]
  {
    var n := Min(|v[j].data|, total - k);
    BeforeNext(v, j);
    NextPiece(v, j, |v[j].data|);
    if k < total { NextPiece(v, j, n); }
  }

  /** m_mbuftouio, on a uio whose vectors take what uio_resid says. */
  method MbufToUio(uio: Uio, first: Mbuf?, len: nat, ghost c: seq<Mbuf>, ghost v: seq<Buf>) returns (error: int)
    requires Linked(c, first) && Shows(c, v) && uio.Valid() && uio.resid <= Space(uio.iov)
    modifies uio
    ensures error == 0 && uio.Valid()
    ensures Moved(old(uio.iov), uio.iov, old(uio.resid), uio.resid, Plain(Cells(v)),
                  Min(if len > 0 then Min(old(uio.resid), len) else old(uio.resid), Total(v).len))
  {
    hide Cells, Space, Filled, InOrder, Linked, Shows, Plain, Moved, Filling;
    var total := if len > 0 then Min(uio.resid, len) else uio.resid;
    var m, progress: nat := first, 0;
    ghost var j: nat, iov0, resid0 := 0, uio.iov, uio.resid;
    CopyStarts(v, total, uio.iov, uio.resid);
    MakeFilling(iov0, uio.iov, resid0, uio.resid, v, 0, total, 0);
    assert m == At(c, 0) by { FirstOf(c, first); }
    while m != null
      invariant j <= |c| && m == At(c, j) && uio.Valid()
      invariant Linked(c, first) && Shows(c, v) && Filling(iov0, uio.iov, resid0, uio.resid, v, j, total, progress)
      decreases |c| - j
    {
      ChainAt(c, first, v, j);
      progress := MoveOne(uio, m, total, progress, iov0, resid0, v, j);
      m := m.next;
      j := j + 1;
    }
    LengthOf(c, v);
    FillingDone(iov0, uio.iov, resid0, uio.resid, v, total, progress);
    error := 0;
  }

  /** One mbuf's share. */
  method MoveOne(uio: Uio, m: Mbuf, total: nat, k: nat, ghost iov0: seq<Iovec>, ghost resid0: nat, ghost v: seq<Buf>,
                 ghost j: nat)
    returns (progress: nat)
    requires uio.Valid() && Filling(iov0, uio.iov, resid0, uio.resid, v, j, total, k) && j < |v| && v[j] == m.Value()
    modifies uio
    ensures uio.Valid() && Filling(iov0, uio.iov, resid0, uio.resid, v, j + 1, total, progress)
  {
    hide Copying, Cells, Space, Filled, InOrder, Plain, Moved;
    CopyPiece(v, j, total, k);
    var length := Min(|m.data|, total - k);
    ghost var iov1, resid1 := uio.iov, uio.resid;
    CanMove(iov0, iov1, resid0, resid1, Plain(Cells(v)), k, length, total);
    var error := uio.Uiomove(m.data, length);
    MovedBoth(iov0, iov1, uio.iov, resid0, resid1, uio.resid, Plain(Cells(v)), k, m.data, length);
    progress := k + length;
  }

  ghost predicate Filling(iov0: seq<Iovec>, iov: seq<Iovec>, resid0: nat, resid: nat, v: seq<Buf>, j: nat, total: nat,
                          k: nat) {
    && Copying(v, j, total, k) && Moved(iov0, iov, resid0, resid, Plain(Cells(v)), k)
    && k <= total <= resid0 <= Space(iov0)
  }

  lemma {:induction false} MakeFilling(iov0: seq<Iovec>, iov: seq<Iovec>, resid0: nat, resid: nat, v: seq<Buf>, j: nat,
                                       total: nat, k: nat)
    requires Copying(v, j, total, k) && Moved(iov0, iov, resid0, resid, Plain(Cells(v)), k)
    requires k <= total <= resid0 <= Space(iov0)
    ensures Filling(iov0, iov, resid0, resid, v, j, total, k)
  {
  }

  lemma {:induction false} FillingDone(iov0: seq<Iovec>, iov: seq<Iovec>, resid0: nat, resid: nat, v: seq<Buf>,
                                       total: nat, k: nat)
    requires Filling(iov0, iov, resid0, resid, v, |v|, total, k)
    ensures Moved(iov0, iov, resid0, resid, Plain(Cells(v)), Min(total, Total(v).len))
  {
    CopyEnds(v, total, k);
  }

  lemma {:induction false} FirstOf(c: seq<Mbuf>, first: Mbuf?)
    requires Linked(c, first)
    ensures first == At(c, 0)
  {
  }

  lemma {:induction false} LengthOf(c: seq<Mbuf>, v: seq<Buf>)
    requires Shows(c, v)
    ensures |c| == |v|
  {
  }

  lemma {:induction false} CopyStarts(v: seq<Buf>, total: nat, iov: seq<Iovec>, resid: nat)
    ensures Copying(v, 0, total, 0) && Moved(iov, iov, resid, resid, Plain(Cells(v)), 0)
  {
    assert v[..0] == [];
    assert Plain(Cells(v))[..0] == [];
  }

  lemma {:induction false} CopyEnds(v: seq<Buf>, total: nat, k: nat)
    requires Copying(v, |v|, total, k)
    ensures k == Min(total, Total(v).len)
  {
    assert v[..|v|] == v;
  }

  lemma {:induction false} CanMove(iov0: seq<Iovec>, iov: seq<Iovec>, resid0: nat, resid: nat, d: seq<byte>, k: nat,
                                   n: nat, total: nat)
    requires Moved(iov0, iov, resid0, resid, d, k) && resid0 <= Space(iov0) && total <= resid0 && k + n <= total
    ensures n <= resid && n <= Space(iov)
  {
  }

  lemma {:induction false} MovedBoth(iov0: seq<Iovec>, iov1: seq<Iovec>, iov: seq<Iovec>, resid0: nat, resid1: nat,
                                     resid: nat, d: seq<byte>, k: nat, e: seq<byte>, n: nat)
    requires Moved(iov0, iov1, resid0, resid1, d, k) && Moved(iov1, iov, resid1, resid, e, n)
    requires k + n <= |d| && n <= |e| && d[..k + n] == d[..k] + e[..n]
    ensures Moved(iov0, iov, resid0, resid, d, k + n)
  {
    hide Space, Filled;
    assert Filled(iov0) + d[..k] + e[..n] == Filled(iov0) + (d[..k] + e[..n]);
  }

  lemma {:induction false} ChainAt(c: seq<Mbuf>, first: Mbuf?, v: seq<Buf>, j: nat)
    requires Linked(c, first) && Shows(c, v) && j < |c|
    ensures |c| == |v| && v[j] == c[j].Value() && c[j].next == At(c, j + 1)
  {
  }

  /** The same copy, for m_copym: the first len bytes of the chain. */
  method CopyFront(first: Mbuf?, len: nat, ghost c: seq<Mbuf>, ghost v: seq<Buf>) returns (d: seq<byte>)
    requires Linked(c, first) && Shows(c, v) && len <= Total(v).len
    ensures len <= |Cells(v)| && d == Plain(Cells(v))[..len]
  {
    hide Copying, Cells, Linked, Shows, Plain, Total, Moved;
    d := [];
    var m := first;
    ghost var j: nat := 0;
    CopyStarts(v, len, [], 0);
    CellsLength(v);
    FirstOf(c, first);
    LengthOf(c, v);
    while m != null && |d| < len
      invariant j <= |c| && m == At(c, j) && Copying(v, j, len, |d|) && |d| <= len && |d| <= |Cells(v)|
      invariant d == Plain(Cells(v))[..|d|]
      decreases |c| - j
    {
      ChainAt(c, first, v, j);
      CopyPiece(v, j, len, |d|);
      d := d + m.data[..Min(|m.data|, len - |d|)];
      m := m.next;
      j := j + 1;
    }
    if m == null { CopyEnds(v, len, |d|); }
  }

  // ---- Delivering ----

  /** Nothing that is available lies behind an mbuf that is not ready. */
  lemma {:induction false} AvailableCuts(v: seq<Buf>, len: nat)
    requires len <= Available(v)
    ensures CutOk(v, len) && len <= Total(v).len
  {
    var f := FirstNotReady(v);
    BeforeMono(v, f, |v|);
    forall i | 0 <= i < |v| && v[i].notReady ensures len <= Before(v, i) { BeforeMono(v, f, i); }
  }

  lemma {:induction false} Readable(sb: Sockbuf)
    requires sb.Valid()
    ensures Linked(sb.chain, sb.mb) && Shows(sb.chain, sb.view) && sb.acc == Available(sb.view)
    ensures sb.ccc == Total(sb.view).len
    ensures sb.acc <= sb.ccc == |Cells(sb.view)|
  {
    AvailableCuts(sb.view, sb.acc);
    CellsLength(sb.view);
  }

  /** n bytes of the queue q were delivered and its rest is r; a look ahead leaves it all. */
  ghost predicate Delivered(q: seq<Cell>, n: nat, peek: bool, r: seq<Cell>) {
    n <= |q| && r == if peek then q else q[n..]
  }

  // ---- What arrives meanwhile ----

  /** One call of sbappendstream by the protocol. */
  datatype Arrival = Arrival(bufs: seq<Buf>, writable: bool, keepNotReady: bool)

  ghost function Arrived(a: seq<Arrival>): seq<Cell> {
    if a == [] then [] else Arrived(a[..|a| - 1]) + Cells(Demoted(a[|a| - 1].bufs, a[|a| - 1].keepNotReady))
  }

  lemma {:induction false} ArrivedNext(a: seq<Arrival>, t: nat)
    requires t < |a|
    ensures Arrived(a[..t + 1]) == Arrived(a[..t]) + Cells(Demoted(a[t].bufs, a[t].keepNotReady))
  {
    assert a[..t + 1][..t] == a[..t];
  }

  /** A new chain with the given contents. */
  method NewChain(bufs: seq<Buf>, writable: bool) returns (first: Mbuf?, ghost c: seq<Mbuf>)
    ensures Linked(c, first) && Shows(c, bufs) && forall i :: 0 <= i < |c| ==> fresh(c[i])
  {
    first, c := null, [];
    var i := |bufs|;
    assert bufs[i..] == [];
    while i > 0
      invariant i <= |bufs| && Linked(c, first) && Shows(c, bufs[i..]) && forall k :: 0 <= k < |c| ==> fresh(c[k])
    {
      i := i - 1;
      var b := bufs[i];
      var m := new Mbuf(b.data, b.room, b.notReady, b.eor, writable, b.kind, b.ext);
      assert forall k :: 0 <= k < |c| ==> c[k] != m;
      m.next := first;
      first := m;
      LinkFront(m, c);
      assert bufs[i..] == [b] + bufs[i + 1..];
      c := [m] + c;
    }
    assert bufs[0..] == bufs;
  }

  /** The protocol appends what has arrived. */
  method Arrive(sb: Sockbuf, a: Arrival)
    requires sb.Valid()
    modifies sb, sb.chain
    ensures sb.Valid() && sb.Contents() == old(sb.Contents()) + Cells(Demoted(a.bufs, a.keepNotReady))
    ensures Grows(old(sb.view), sb.view) && Full(old(sb.view), sb.view)
    ensures old(sb.chain) <= sb.chain && forall i :: |old(sb.chain)| <= i < |sb.chain| ==> fresh(sb.chain[i])
  {
    hide Sockbuf.Valid, Cells, Demoted, Grows, Full, Linked, Shows;
    var first;
    ghost var c;
    first, c := NewChain(a.bufs, a.writable);
    sb.AppendStream(first, a.keepNotReady, c, a.bufs);
  }

  lemma {:induction false} BeforeGrows(v: seq<Buf>, w: seq<Buf>, j: nat)
    requires Grows(v, w) && j <= |v|
    ensures j < |v| ==> Before(w, j) == Before(v, j)
    ensures Before(v, j) <= Before(w, j)
  {
    if j < |v| { assert w[..j] == v[..j]; } else if j > 0 {
      assert w[..j - 1] == v[..j - 1];
      BeforeNext(v, j - 1);
      BeforeNext(w, j - 1);
    }
  }

  /** A reader in the middle of the chain is not disturbed. */
  lemma {:induction false} FillingGrows(iov0: seq<Iovec>, iov: seq<Iovec>, resid0: nat, resid: nat, v: seq<Buf>,
                                        w: seq<Buf>, j: nat, total: nat, k: nat)
    requires Filling(iov0, iov, resid0, resid, v, j, total, k) && Grows(v, w) && Cells(v) <= Cells(w)
    requires total <= |Cells(v)|
    ensures Filling(iov0, iov, resid0, resid, w, j, total, k)
  {
    hide Cells, Space, Filled, Before;
    BeforeGrows(v, w, j);
    if j == |v| { WholeBefore(v); }
    assert Plain(Cells(w))[..k] == Plain(Cells(v))[..k];
  }

  lemma {:induction false} WholeBefore(v: seq<Buf>)
    ensures Before(v, |v|) == |Cells(v)|
  {
    assert v[..|v|] == v;
    CellsLength(v);
  }

  /** In the middle of m_mbuftouio on a buffer that held v0: k bytes are copied, got has arrived. */
  ghost predicate Reading(sb: Sockbuf, v0: seq<Buf>, got: seq<Cell>, iov0: seq<Iovec>, iov: seq<Iovec>, resid0: nat,
                          resid: nat, j: nat, total: nat, k: nat)
    reads sb, sb.chain
  {
    && sb.Valid() && sb.Contents() == Cells(v0) + got && Grows(v0, sb.view) && Full(v0, sb.view) && total <= |Cells(v0)|
    && Filling(iov0, iov, resid0, resid, sb.view, j, total, k)
  }

  lemma {:induction false} ReadingAt(sb: Sockbuf, v0: seq<Buf>, got: seq<Cell>, iov0: seq<Iovec>, iov: seq<Iovec>,
                                     resid0: nat, resid: nat, j: nat, total: nat, k: nat)
    requires Reading(sb, v0, got, iov0, iov, resid0, resid, j, total, k)
    ensures Linked(sb.chain, sb.mb) && Shows(sb.chain, sb.view) && j <= |sb.chain| == |sb.view|
    ensures Filling(iov0, iov, resid0, resid, sb.view, j, total, k)
  {
  }

  /** Between two mbufs of the copy, the protocol appends the next arrival, if there is one. */
  method Meanwhile(sb: Sockbuf, uio: Uio, arrivals: seq<Arrival>, t: nat, ghost v0: seq<Buf>, ghost iov0: seq<Iovec>,
                   ghost resid0: nat,
                   ghost j: nat, ghost total: nat, ghost k: nat)
    returns (t': nat)
    requires t <= |arrivals| && Reading(sb, v0, Arrived(arrivals[..t]), iov0, uio.iov, resid0, uio.resid, j, total, k)
    modifies sb, sb.chain
    ensures t' == (if t < |arrivals| then t + 1 else t)
    ensures Reading(sb, v0, Arrived(arrivals[..t']), iov0, uio.iov, resid0, uio.resid, j, total, k)
    ensures old(sb.chain) <= sb.chain && forall i :: |old(sb.chain)| <= i < |sb.chain| ==> fresh(sb.chain[i])
    ensures t == |arrivals| ==> sb.chain == old(sb.chain) && sb.view == old(sb.view)
  {
    hide Sockbuf.Valid, Cells, Demoted, Grows, Full, Filling, Arrived;
    t' := t;
    if t < |arrivals| {
      ghost var v := sb.view;
      Arrive(sb, arrivals[t]);
      GrowsOn(v0, v, sb.view);
      FullOn(v0, v, sb.view);
      FillingGrows(iov0, uio.iov, resid0, uio.resid, v, sb.view, j, total, k);
      ArrivedNext(arrivals, t);
      t' := t + 1;
    }
  }

  /** One mbuf of the copy. */
  method ReadOne(sb: Sockbuf, uio: Uio, m: Mbuf, total: nat, k: nat, ghost v0: seq<Buf>, ghost got: seq<Cell>,
                 ghost iov0: seq<Iovec>, ghost resid0: nat, ghost j: nat)
    returns (progress: nat)
    requires Reading(sb, v0, got, iov0, uio.iov, resid0, uio.resid, j, total, k) && j < |sb.chain| && m == sb.chain[j]
    requires uio.Valid()
    modifies uio
    ensures uio.Valid() && Reading(sb, v0, got, iov0, uio.iov, resid0, uio.resid, j + 1, total, progress)
  {
    hide Sockbuf.Valid, Cells, Filling, Linked, Shows;
    ReadingAt(sb, v0, got, iov0, uio.iov, resid0, uio.resid, j, total, k);
    ChainAt(sb.chain, sb.mb, sb.view, j);
    progress := MoveOne(uio, m, total, k, iov0, resid0, sb.view, j);
  }

  lemma {:induction false} ReadingStarts(sb: Sockbuf, iov: seq<Iovec>, resid: nat, total: nat, arrivals: seq<Arrival>)
    requires sb.Valid() && total <= |sb.Contents()| && total <= resid <= Space(iov)
    ensures Reading(sb, sb.view, Arrived(arrivals[..0]), iov, iov, resid, resid, 0, total, 0)
  {
    hide Sockbuf.Valid, Cells, Space, Filled;
    CopyStarts(sb.view, total, iov, resid);
    assert Grows(sb.view, sb.view) && Full(sb.view, sb.view);
    assert sb.Contents() + [] == sb.Contents();
  }

  lemma {:induction false} ReadingNext(sb: Sockbuf, v0: seq<Buf>, got: seq<Cell>, iov0: seq<Iovec>, iov: seq<Iovec>,
                                       resid0: nat, resid: nat, j: nat, total: nat, k: nat)
    requires Reading(sb, v0, got, iov0, iov, resid0, resid, j, total, k)
    ensures j <= |sb.chain| && sb.mb == At(sb.chain, 0) && (j > 0 ==> sb.chain[j - 1].next == At(sb.chain, j))
  {
    hide Sockbuf.Valid, Cells, Filling;
    ReadingAt(sb, v0, got, iov0, iov, resid0, resid, j, total, k);
  }

  lemma {:induction false} ReadingEnds(sb: Sockbuf, v0: seq<Buf>, got: seq<Cell>, iov0: seq<Iovec>, iov: seq<Iovec>,
                                       resid0: nat, resid: nat, total: nat, k: nat)
    requires Reading(sb, v0, got, iov0, iov, resid0, resid, |sb.chain|, total, k)
    ensures sb.Valid() && sb.Contents() == Cells(v0) + got && Grows(v0, sb.view) && Full(v0, sb.view)
    ensures Moved(iov0, iov, resid0, resid, Plain(Cells(v0)), total)
  {
    hide Sockbuf.Valid, Cells, Space, Filled, Linked, Shows, Grows, Full, Filling;
    ReadingAt(sb, v0, got, iov0, iov, resid0, resid, |sb.chain|, total, k);
    FillingDone(iov0, iov, resid0, resid, sb.view, total, k);
    CellsLength(sb.view);
    assert Plain(Cells(v0) + got)[..total] == Plain(Cells(v0))[..total];
  }

  /** m_mbuftouio with the buffer unlocked: before the copy and behind every mbuf, the protocol may
      append. The copy gets what was there when its length was settled. The first t arrivals came in time. */
  method CopyUnlocked(sb: Sockbuf, uio: Uio, len: nat, arrivals: seq<Arrival>) returns (error: int, t: nat)
    requires sb.Valid() && uio.Valid() && 0 < len <= |sb.Contents()| && len <= uio.resid <= Space(uio.iov)
    modifies sb, sb.chain, uio
    ensures error == 0 && sb.Valid() && uio.Valid() && t <= |arrivals|
    ensures sb.Contents() == old(sb.Contents()) + Arrived(arrivals[..t])
    ensures Grows(old(sb.view), sb.view) && Full(old(sb.view), sb.view)
    ensures Moved(old(uio.iov), uio.iov, old(uio.resid), uio.resid, Plain(old(sb.Contents())), len)
    ensures arrivals == [] ==> sb.chain == old(sb.chain) && sb.view == old(sb.view)
    ensures old(sb.chain) <= sb.chain && forall i :: |old(sb.chain)| <= i < |sb.chain| ==> fresh(sb.chain[i])
  {
    hide Sockbuf.Valid, Cells, Space, Filled, InOrder, Reading, Arrived, Plain, Moved, Grows, Full;
    ghost var v0, iov0, resid0 := sb.view, uio.iov, uio.resid;
    var total := Min(uio.resid, len);
    var progress: nat := 0;
    ghost var j: nat := 0;
    ReadingStarts(sb, uio.iov, uio.resid, total, arrivals);
    t := Meanwhile(sb, uio, arrivals, 0, v0, iov0, resid0, j, total, progress);
    ReadingNext(sb, v0, Arrived(arrivals[..t]), iov0, uio.iov, resid0, uio.resid, j, total, progress);
    var m := sb.mb;
    while m != null
      invariant t <= |arrivals| && j <= |sb.chain| && m == At(sb.chain, j) && uio.Valid()
      invariant Reading(sb, v0, Arrived(arrivals[..t]), iov0, uio.iov, resid0, uio.resid, j, total, progress)
      invariant old(sb.chain) <= sb.chain && forall i :: |old(sb.chain)| <= i < |sb.chain| ==> fresh(sb.chain[i])
      invariant arrivals == [] ==> sb.chain == old(sb.chain) && sb.view == old(sb.view)
      decreases |arrivals| - t, |sb.chain| - j
    {
      progress := ReadOne(sb, uio, m, total, progress, v0, Arrived(arrivals[..t]), iov0, resid0, j);
      j := j + 1;
      t := Meanwhile(sb, uio, arrivals, t, v0, iov0, resid0, j, total, progress);
      ReadingNext(sb, v0, Arrived(arrivals[..t]), iov0, uio.iov, resid0, uio.resid, j, total, progress);
      m := m.next;
    }
    ReadingEnds(sb, v0, Arrived(arrivals[..t]), iov0, uio.iov, resid0, uio.resid, total, progress);
    error := 0;
  }

  /** What was available stays so when more comes. */
  lemma {:induction false} StillAvailable(v: seq<Buf>, w: seq<Buf>)
    requires Grows(v, w)
    ensures Available(v) <= Available(w)
  {
    var f, g := FirstNotReady(v), FirstNotReady(w);
    if f < |v| {
      assert w[f].notReady && f >= g;
      FirstNotReadyIs(w, f);
      BeforeGrows(v, w, f);
    } else {
      assert g >= |v|;
      BeforeGrows(v, w, |v|);
      BeforeMono(w, |v|, g);
    }
  }

  /** The data part with a uio: what goes into the vectors is what leaves the buffer. The buffer is
      unlocked during the copy, and what arrives then stays behind it. */
  method Deliver(sb: Sockbuf, uio: Uio, peek: bool, arrivals: seq<Arrival>) returns (error: int, ghost n: nat, t: nat)
    requires sb.Valid() && uio.Valid() && uio.resid <= Space(uio.iov) && 0 < sb.acc && 0 < uio.resid
    modifies sb, sb.chain, uio
    ensures error == 0 && n == Min(old(uio.resid), old(sb.acc)) && sb.Valid() && uio.Valid() && t <= |arrivals|
    ensures Moved(old(uio.iov), uio.iov, old(uio.resid), uio.resid, Plain(old(sb.Contents())), n)
    ensures Delivered(old(sb.Contents()) + Arrived(arrivals[..t]), n, peek, sb.Contents())
    ensures peek && arrivals == [] ==> sb.chain == old(sb.chain) && sb.view == old(sb.view)
    ensures Solid(old(sb.view)) ==> Solid(sb.view)
    ensures forall i :: 0 <= i < |sb.chain| ==> sb.chain[i] in old(sb.chain) || fresh(sb.chain[i])
  {
    hide Sockbuf.Valid, Cells, Space, Filled, InOrder, CutOk, Linked, Shows, Rest, Arrived, Plain, Moved, Grows, Full,
         Solid, UpTo, Available;
    Readable(sb);
    var len := Min(uio.resid, sb.acc);
    n := len;
    ghost var v, q := sb.view, sb.Contents();
    error, t := CopyUnlocked(sb, uio, len, arrivals);
    if Solid(v) { SolidGrows(v, sb.view); }
    if !peek {
      ghost var w := sb.view;
      StillAvailable(v, sb.view);
      Readable(sb);
      AvailableCuts(sb.view, len);
      var mfree;
      ghost var freed, k;
      mfree, freed, k := sb.Cut(len);
      if Solid(w) { SolidCut(w, k, sb.view); }
      RestIs(q + Arrived(arrivals[..t]), len, sb.Contents());
    }
  }

  lemma {:induction false} RestIs(q: seq<Cell>, n: nat, r: seq<Cell>)
    requires Rest(q, n, r)
    ensures n <= |q| && r == q[n..]
  {
  }

  // ---- Delivering mbufs ----

  const ENOBUFS := 55

  lemma {:induction false} PopAvailable(v: seq<Buf>, len: nat)
    requires v != [] && |v[0].data| <= len <= Available(v)
    ensures len - |v[0].data| <= Available(v[1..]) && (v[0].notReady ==> v[0].data == [])
  {
    var t := Total(v);
    BooksPop(v, t.len, Available(v), t.ctl, t.cnt);
  }

  /** The first k mbufs are out of the accounts and len of the len0 bytes are still wanted. */
  ghost predicate Taking(sb: Sockbuf, c: seq<Mbuf>, v: seq<Buf>, k: nat, len0: nat, len: nat)
    reads sb, c
  {
    && k <= |c| == |v| && Linked(c, At(c, 0)) && Shows(c, v) && sb.Accounted(c[k..], v[k..])
    && Before(v, k) + len == len0 && len <= Available(v[k..]) && Settled(v, k)
  }

  /** Of the first k mbufs, those that are not ready hold nothing. */
  ghost predicate Settled(v: seq<Buf>, k: nat) {
    k <= |v| && forall i :: 0 <= i < k && v[i].notReady ==> v[i].data == []
  }

  lemma {:induction false} TakingAt(sb: Sockbuf, c: seq<Mbuf>, v: seq<Buf>, k: nat, len0: nat, len: nat)
    requires Taking(sb, c, v, k, len0, len) && k < |c|
    ensures v[k] == c[k].Value() && c[k].next == At(c, k + 1) && Linked(c[k..], c[k]) && Shows(c[k..], v[k..])
  {
    var d := c[k..];
    forall i | 0 <= i < |d| ensures d[i].next == At(d, i + 1) { assert d[i] == c[k + i]; }
  }

  lemma {:induction false} TakingNext(v: seq<Buf>, k: nat, len0: nat, len: nat)
    requires k < |v| && Before(v, k) + len == len0 && |v[k].data| <= len <= Available(v[k..]) && Settled(v, k)
    ensures Before(v, k + 1) + (len - |v[k].data|) == len0 && len - |v[k].data| <= Available(v[k + 1..])
    ensures Settled(v, k + 1)
    ensures v[k..][1..] == v[k + 1..]
  {
    BeforeNext(v, k);
    PopAvailable(v[k..], len);
  }

  /** As many whole mbufs as fit are freed from the accounts; they stay linked meanwhile. */
  method TakeOne(sb: Sockbuf, uio: Uio, m: Mbuf, len: nat, ghost c: seq<Mbuf>, ghost v: seq<Buf>, ghost k: nat,
                 ghost len0: nat)
    requires Taking(sb, c, v, k, len0, len) && k < |c| && c[k] == m && |m.data| <= len <= uio.resid
    modifies sb`ccc, sb`acc, sb`ctl, sb`mbcnt, sb`fnrdy, sb`sndptr, sb`sndptroff, sb`snd, uio`resid
    ensures Taking(sb, c, v, k + 1, len0, len - |m.data|) && uio.resid == old(uio.resid) - |m.data|
  {
    hide Linked, Shows, Sockbuf.Accounted, Settled, Available, Before;
    TakingAt(sb, c, v, k, len0, len);
    TakingNext(v, k, len0, len);
    assert c[k..][1..] == c[k + 1..];
    uio.resid := uio.resid - |m.data|;
    sb.Sbfree(m, c[k..], v[k..]);
  }

  method TakeWhole(sb: Sockbuf, uio: Uio, len0: nat, ghost c: seq<Mbuf>, ghost v: seq<Buf>)
    returns (len: nat, m: Mbuf?, n: Mbuf, ghost k: nat)
    requires Taking(sb, c, v, 0, len0, len0) && len0 <= uio.resid && sb.mb == At(c, 0) && sb.mb != null
    requires |sb.mb.data| <= len0
    modifies sb`ccc, sb`acc, sb`ctl, sb`mbcnt, sb`fnrdy, sb`sndptr, sb`sndptroff, sb`snd, uio`resid
    ensures 0 < k <= |c| && Taking(sb, c, v, k, len0, len) && m == At(c, k) && n == c[k - 1]
    ensures len <= len0 && uio.resid == old(uio.resid) - (len0 - len) && (k < |c| ==> len < |c[k].data|)
  {
    hide Taking;
    m, n, len, k := sb.mb, sb.mb, len0, 0;
    while m != null && |m.data| <= len
      invariant k <= |c| && m == At(c, k) && (k == 0 ==> len == len0) && (k > 0 ==> n == c[k - 1])
      invariant Taking(sb, c, v, k, len0, len) && len <= len0 && uio.resid == old(uio.resid) - (len0 - len)
      decreases |c| - k
    {
      TakingAt(sb, c, v, k, len0, len);
      TakeOne(sb, uio, m, len, c, v, k, len0);
      len := len - |m.data|;
      n := m;
      m := m.next;
      k := k + 1;
    }
  }

  method Dequeue(sb: Sockbuf, uio: Uio, len0: nat) returns (len: nat, first: Mbuf?, ghost k: nat)
    requires sb.Valid() && 0 < len0 <= sb.acc && len0 <= uio.resid && sb.mb != null && |sb.mb.data| <= len0
    modifies sb, sb.chain, uio`resid
    ensures sb.Valid() && 0 < k <= |old(sb.chain)| == |old(sb.view)| && sb.chain == old(sb.chain)[k..]
    ensures sb.view == old(sb.view)[k..]
    ensures Before(old(sb.view), k) + len == len0 && len <= sb.acc && Settled(old(sb.view), k)
    ensures k < |old(sb.view)| ==> len < |old(sb.view)[k].data|
    ensures first == old(sb.mb) && Linked(old(sb.chain)[..k], first)
    ensures uio.resid == old(uio.resid) - Before(old(sb.view), k)
    ensures Apart(old(sb.chain)[..k], sb.chain)
  {
    hide Taking, Sockbuf.Valid, Linked, Shows, Sockbuf.Accounted, Settled, Before, Apart;
    ghost var c, v := sb.chain, sb.view;
    first := sb.mb;
    TakingStarts(sb, len0);
    var m, n;
    len, m, n, k := TakeWhole(sb, uio, len0, c, v);
    TakingEnd(sb, c, v, k, len0, len);
    if k < |c| { TakingAt(sb, c, v, k, len0, len); }
    TakeOff(sb, n, m, c, v, k);
  }

  lemma {:induction false} TakingEnd(sb: Sockbuf, c: seq<Mbuf>, v: seq<Buf>, k: nat, len0: nat, len: nat)
    requires Taking(sb, c, v, k, len0, len)
    ensures k <= |c| == |v| && Linked(c, At(c, 0)) && Shows(c, v) && sb.Accounted(c[k..], v[k..])
    ensures Before(v, k) + len == len0 && len <= sb.acc && Settled(v, k) && Apart(c[..k], c[k..])
  {
    forall x | x in c[..k] ensures x !in c[k..] {
      var i :| 0 <= i < k && c[i] == x;
      forall j | 0 <= j < |c[k..]| ensures c[k..][j] != x { assert c[k..][j] == c[k + j]; }
    }
  }

  lemma {:induction false} TakingStarts(sb: Sockbuf, len0: nat)
    requires sb.Valid() && len0 <= sb.acc
    ensures Taking(sb, sb.chain, sb.view, 0, len0, len0) && sb.mb == At(sb.chain, 0) && |sb.chain| == |sb.view|
    ensures sb.mbtail == if sb.chain == [] then null else sb.chain[|sb.chain| - 1]
  {
    assert sb.chain[0..] == sb.chain && sb.view[0..] == sb.view && sb.view[..0] == [];
  }

  /** The chain is parted behind the last mbuf taken, and the buffer goes on with the rest. */
  method TakeOff(sb: Sockbuf, n: Mbuf, m: Mbuf?, ghost c: seq<Mbuf>, ghost v: seq<Buf>, ghost k: nat)
    requires 0 < k <= |c| == |v| && Linked(c, At(c, 0)) && Shows(c, v) && sb.Accounted(c[k..], v[k..])
    requires n == c[k - 1] && m == At(c, k) && sb.mbtail == if c == [] then null else c[|c| - 1]
    modifies sb`mb, sb`mbtail, sb`lastrecord, sb`chain, sb`view, n`next
    ensures sb.Valid() && sb.chain == c[k..] && sb.view == v[k..] && Linked(c[..k], c[0])
  {
    hide Linked, Shows, Sockbuf.Accounted, Sockbuf.Valid;
    PartAt(n, c, v, k);
    sb.mb := m;
    sb.lastrecord := sb.mb;
    if sb.mb == null {
      sb.mbtail := null;
      sb.lastrecord := null;
    }
    sb.chain, sb.view := c[k..], v[k..];
    MakeValid(sb);
  }

  lemma {:induction false} MakeValid(sb: Sockbuf)
    requires Linked(sb.chain, sb.mb) && Shows(sb.chain, sb.view) && |sb.chain| == |sb.view|
    requires sb.Accounted(sb.chain, sb.view)
    requires sb.mbtail == (if sb.chain == [] then null else sb.chain[|sb.chain| - 1]) && sb.lastrecord == sb.mb
    ensures sb.Valid()
  {
  }

  method PartAt(n: Mbuf, ghost c: seq<Mbuf>, ghost v: seq<Buf>, ghost k: nat)
    requires 0 < k <= |c| == |v| && Linked(c, At(c, 0)) && Shows(c, v) && n == c[k - 1]
    modifies n`next
    ensures Linked(c[..k], c[0]) && Linked(c[k..], At(c, k)) && Shows(c[k..], v[k..])
  {
    n.next := null;
    Parted(c, v, k);
  }

  lemma {:induction false} Parted(c: seq<Mbuf>, v: seq<Buf>, k: nat)
    requires 0 < k <= |c| && Distinct(c) && Shows(c, v) && c[k - 1].next == null
    requires forall i {:trigger c[i].next} :: 0 <= i < |c| && i != k - 1 ==> c[i].next == At(c, i + 1)
    ensures Linked(c[..k], c[0]) && Linked(c[k..], At(c, k)) && Shows(c[k..], v[k..])
  {
    var a, b := c[..k], c[k..];
    forall i | 0 <= i < |a| ensures a[i].next == At(a, i + 1) { assert a[i] == c[i]; }
    forall i | 0 <= i < |b| ensures b[i].next == At(b, i + 1) { assert b[i] == c[k + i]; }
  }

  /** Behind the whole mbufs, the rest is copied: together, the next n bytes of the queue. */
  ghost predicate Handed(v: seq<Buf>, k: nat, tail: seq<byte>, n: nat) {
    k <= |v| && n <= |Cells(v)| && Plain(Cells(v[..k])) + tail == Plain(Cells(v))[..n]
  }

  /** The first k mbufs fit into len bytes, and the next does not. */
  ghost predicate AsManyFit(v: seq<Buf>, k: nat, len: nat) {
    k <= |v| && Before(v, k) <= len && (k < |v| ==> len < Before(v, k) + |v[k].data|)
  }

  lemma {:induction false} HeadValue(sb: Sockbuf)
    requires Linked(sb.chain, sb.mb) && Shows(sb.chain, sb.view) && sb.mb != null
    ensures sb.view != [] && sb.view[0].data == sb.mb.data
  {
  }

  /** The data part with a chain to return: whole mbufs leave the buffer as they are, and only
      what remains is copied. copies says whether m_copym finds the memory. */
  method DeliverChain(sb: Sockbuf, uio: Uio, peek: bool, copies: bool)
    returns (error: int, first: Mbuf?, tail: seq<byte>, ghost k: nat, ghost n: nat)
    requires sb.Valid() && 0 < sb.acc && 0 < uio.resid && sb.mb != null
    modifies sb, sb.chain, uio`resid
    ensures error == if !copies && (peek || Min(old(uio.resid), old(sb.acc)) < |old(sb.mb.data)|) then ENOBUFS else 0
    ensures sb.Valid() && k <= |old(sb.chain)| == |old(sb.view)| && uio.resid == old(uio.resid) - n
    ensures error != 0 || peek ==> sb.chain == old(sb.chain) && sb.view == old(sb.view) && k == 0
    ensures error != 0 ==> n == 0
    ensures error == 0 ==> n == if copies then Min(old(uio.resid), old(sb.acc)) else Before(old(sb.view), k)
    ensures error == 0 ==> Linked(old(sb.chain)[..k], first) && Settled(old(sb.view), k)
    ensures !peek ==> AsManyFit(old(sb.view), k, Min(old(uio.resid), old(sb.acc)))
    ensures error == 0 ==> Handed(old(sb.view), k, tail, n) && Delivered(old(sb.Contents()), n, peek, sb.Contents())
  {
    hide Sockbuf.Valid, Cells, Linked, Shows, Settled, Handed, Before, Delivered;
    Readable(sb);
    HeadValue(sb);
    ghost var v := sb.view;
    var len := Min(uio.resid, sb.acc);
    first, k, tail, error, n := null, 0, [], 0, len;
    NothingTaken(sb.chain, v);
    if !peek && len >= |sb.mb.data| {
      len, first, k := Dequeue(sb, uio, len);
    }
    assert n == Before(v, k) + len && sb.view == v[k..] && (!peek ==> AsManyFit(v, k, n));
    hide AsManyFit;
    if len == 0 || !copies {
      if len > 0 && first == null { return ENOBUFS, null, [], 0, 0; }
      n := n - len;
      OnlyWhole(v, k, n);
    } else {
      ghost var c := old(sb.chain);
      label Taken:
      tail := CopyRest(sb, uio, len, peek);
      forall x | x in c[..k] ensures x.next == old@Taken(x.next) { assert k > 0; }
      assert Linked(c[..k], first);
      HandedOver(v, k, n, len, tail);
      LeftOver(v, k, n, len, peek, sb.view);
    }
  }

  /** The remainder is copied and then dropped. */
  method CopyRest(sb: Sockbuf, uio: Uio, len: nat, peek: bool) returns (tail: seq<byte>)
    requires sb.Valid() && 0 < len <= sb.acc && len <= uio.resid
    modifies sb, sb.chain, uio`resid
    ensures sb.Valid() && uio.resid == old(uio.resid) - len
    ensures len <= |old(sb.Contents())| && tail == Plain(old(sb.Contents()))[..len]
    ensures Delivered(old(sb.Contents()), len, peek, sb.Contents())
    ensures (peek ==> sb.chain == old(sb.chain) && sb.view == old(sb.view))
  {
    hide Sockbuf.Valid, Cells, CutOk, Linked, Shows, Rest;
    Readable(sb);
    AvailableCuts(sb.view, len);
    tail := CopyFront(sb.mb, len, sb.chain, sb.view);
    uio.resid := uio.resid - len;
    if !peek {
      ghost var q := sb.Contents();
      var mfree;
      ghost var freed, j;
      mfree, freed, j := sb.Cut(len);
      RestIs(q, len, sb.Contents());
    }
  }

  lemma {:induction false} OnlyWhole(v: seq<Buf>, k: nat, n: nat)
    requires k <= |v| && n == Before(v, k)
    ensures Handed(v, k, [], n) && Delivered(Cells(v), n, false, Cells(v[k..]))
    ensures (n == 0 && k == 0 ==> Delivered(Cells(v), n, true, Cells(v)))
  {
    hide Plain;
    PlainLength(Cells(v[k..]));
    assert Plain(Cells(v[k..]))[..0] == [];
    HandedOver(v, k, n, 0, []);
    CellsSplit(v, k);
  }

  lemma {:induction false} NothingTaken(c: seq<Mbuf>, v: seq<Buf>)
    ensures Before(v, 0) == 0 && v[0..] == v && Settled(v, 0) && c[..0] == [] && Linked(c[..0], null)
  {
    assert v[..0] == [];
  }

  lemma {:induction false} HandedOver(v: seq<Buf>, k: nat, n: nat, len: nat, tail: seq<byte>)
    requires k <= |v| && n == Before(v, k) + len && len <= |Cells(v[k..])| && tail == Plain(Cells(v[k..]))[..len]
    ensures Handed(v, k, tail, n)
  {
    CellsSplit(v, k);
    var a, r := Cells(v[..k]), Cells(v[k..]);
    hide Cells, Plain;
    PlainConcat(a, r);
    PlainLength(a);
    PlainLength(r);
  }

  lemma {:induction false} LeftOver(v: seq<Buf>, k: nat, n: nat, len: nat, peek: bool, u: seq<Buf>)
    requires k <= |v| && n == Before(v, k) + len && (peek ==> k == 0)
    requires Delivered(Cells(v[k..]), len, peek, Cells(u))
    ensures Delivered(Cells(v), n, peek, Cells(u))
  {
    CellsSplit(v, k);
  }

  // ---- Whether to deliver ----

  const ENOTCONN := 57
  const EAGAIN := 35

  /** What the reader asks for and finds besides the data: uio_resid, whether the socket is or was
      connected, so_error, whether the door is closed, whether it must not block, MSG_WAITALL, the
      low-water mark and the limit. */
  datatype Call = Call(resid: nat, connected: bool, fault: int, closed: bool, nonblocking: bool, waitall: bool,
                       lowat: nat, hiwat: nat)

  datatype Verdict = Give | Wait | Leave(error: int)

  function Decide(c: Call, avail: nat): Verdict {
    if c.resid == 0 then Leave(EINVAL)
    else if !c.connected then Leave(ENOTCONN)
    else if c.fault != 0 then if avail > 0 then Give else Leave(c.fault)
    else if c.closed then if avail > 0 then Give else Leave(0)
    else if avail == 0 && c.nonblocking then Leave(EAGAIN)
    else if avail > 0 && !c.waitall && (c.nonblocking || avail >= c.lowat || avail >= c.resid || avail >= c.hiwat)
    then Give
    else if c.waitall && (avail >= c.resid || avail >= c.hiwat) then Give
    else Wait
  }

  /** Data are given only when there are some, or when the buffer can hold none at all. */
  lemma {:induction false} GivesSomething(c: Call, avail: nat)
    requires c.hiwat > 0 && Decide(c, avail) == Give
    ensures avail > 0 && c.resid > 0
  {
  }

  /** Exactly when a reader that must not block blocks all the same: with MSG_WAITALL, as soon as
      some but not enough is there. */
  lemma {:induction false} NonblockingWaits(c: Call, avail: nat)
    requires c.nonblocking
    ensures Decide(c, avail) == Wait <==>
            && c.resid > 0 && c.connected && c.fault == 0 && !c.closed
            && c.waitall && 0 < avail < c.resid && avail < c.hiwat
  {
  }

  /** One pass for a reader with vectors and without MSG_WAITALL. */
  method Receive(sb: Sockbuf, uio: Uio, call: Call, peek: bool, arrivals: seq<Arrival>)
    returns (verdict: Verdict, ghost n: nat, t: nat)
    requires sb.Valid() && uio.Valid() && uio.resid <= Space(uio.iov)
    requires call.resid == uio.resid && !call.waitall
    modifies sb, sb.chain, uio
    ensures verdict == Decide(call, old(sb.acc)) && sb.Valid() && uio.Valid() && t <= |arrivals|
    ensures n == if verdict.Give? then Min(old(uio.resid), old(sb.acc)) else 0
    ensures verdict.Give? ==> n > 0
    ensures Moved(old(uio.iov), uio.iov, old(uio.resid), uio.resid, Plain(old(sb.Contents())), n)
    ensures Delivered(old(sb.Contents()) + Arrived(arrivals[..t]), n, peek, sb.Contents())
    ensures (peek && arrivals == []) || !verdict.Give? ==> sb.chain == old(sb.chain) && sb.view == old(sb.view)
  {
    hide Sockbuf.Valid, Cells, InOrder;
    verdict, n, t := Decide(call, sb.acc), 0, 0;
    if verdict.Give? {
      var error;
      error, n, t := Deliver(sb, uio, peek, arrivals);
    } else {
      CopyStarts(sb.view, 0, uio.iov, uio.resid);
      assert sb.Contents() + [] == sb.Contents() && sb.Contents()[0..] == sb.Contents();
    }
  }
}

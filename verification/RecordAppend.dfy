/** Adding to a socket buffer of several records, on mbufs whose clusters others may share. */
module RecordAppend {
  import opened Basics
  import opened MbufMem
  import opened MbufChains
  import opened MbufEdits
  import opened MbufPool
  import opened MbufUnshare
  import opened RecordShape

  /** sb_mbtail and sb_lastrecord. */
  ghost predicate Tails(recs: seq<seq<Id>>, mbtail: Option<Id>, lastrecord: Option<Id>) {
    if recs == [] then mbtail == None && lastrecord == None
    else
      var c := recs[|recs| - 1];
      c != [] && lastrecord == Some(c[0]) && mbtail == Some(c[|c| - 1])
  }

  /** A chain on its way into a buffer that holds flat. */
  ghost predicate Incoming(mbufs: map<Id, Mbuf>, tags: Tags, w: seq<Id>, flat: seq<Id>) {
    && LinkedTo(mbufs, w, None) && Tagged(tags, w) && Apart(flat, w)
    && forall x :: x in w && x in tags ==> tags[x].pkt == None
  }

  /** Memory, records and sums agree. */
  ghost predicate Kept(mem: Mem, tags: Tags, recs: seq<seq<Id>>, sums: Sums) {
    Ok(mem) && Shape(mem.mbufs, tags, recs, None) && Sum(mem.mbufs, tags, Flat(recs)) == sums
  }

  class RecordBuf {
    const pool: Pool
    var tags: Tags
    var mb: Option<Id>
    var mbtail: Option<Id>
    var lastrecord: Option<Id>
    var sums: Sums
    var noCoalesce: bool
    ghost var recs: seq<seq<Id>>

    constructor (pool: Pool, noCoalesce: bool)
      requires Ok(pool.mem)
      ensures Valid() && this.pool == pool && recs == []
    {
      this.pool, this.noCoalesce := pool, noCoalesce;
      tags, mb, mbtail, lastrecord, sums, recs := map[], None, None, None, Sums(0, 0, 0), [];
    }

    ghost predicate Valid()
      reads this, pool
    {
      && Kept(pool.mem, tags, recs, sums) && mb == Lead(recs, 0, None) && Tails(recs, mbtail, lastrecord)
    }

    /** The bytes of all records, in order. */
    ghost function Contents(): seq<byte>
      reads this, pool
    {
      ChainBytes(pool.mem, Flat(recs))
    }

    /** sballoc, of the sums that span records. */
    method Sballoc(i: Id)
      requires i in pool.mem.mbufs && i in tags
      modifies this`sums
      ensures sums == Plus(old(sums), Weight(pool.mem.mbufs, tags, i))
    {
      var len := pool.mem.mbufs[i].len;
      sums := Sums(sums.len + len, if tags[i].kind.Other? then sums.ctl + len else sums.ctl,
                   sums.cnt + MSIZE + tags[i].ext);
    }

    /** sbfree, of the same sums. */
    method Sbfree(i: Id)
      requires i in pool.mem.mbufs && i in tags
      modifies this`sums
      ensures sums == Minus(old(sums), Weight(pool.mem.mbufs, tags, i))
    {
      var len := pool.mem.mbufs[i].len;
      sums := Sums(sums.len - len, if tags[i].kind.Other? then sums.ctl - len else sums.ctl,
                   sums.cnt - MSIZE - tags[i].ext);
    }

    /** SBLINKRECORD. */
    method LinkRecord(m0: Id, ghost r: seq<Id>)
      requires Ok(pool.mem) && Shape(pool.mem.mbufs, tags, recs, None) && Tails(recs, mbtail, lastrecord)
      requires mb == Lead(recs, 0, None)
      requires Incoming(pool.mem.mbufs, tags, r, Flat(recs)) && r != [] && r[0] == m0
      requires sums == Plus(Sum(pool.mem.mbufs, tags, Flat(recs)), Sum(pool.mem.mbufs, tags, r))
      modifies this`tags, this`mb, this`lastrecord, this`recs
      ensures Kept(pool.mem, tags, recs, sums) && mb == Lead(recs, 0, None) && lastrecord == Some(m0)
      ensures recs == old(recs) + [r] && Flat(recs) == old(Flat(recs)) + r
      ensures Relinked(old(tags), tags, old(Flat(recs)))
    {
      hide Shape, Ok, Sum, LinkedTo, Distinct, Flat, Incoming, Row;
      ghost var mbufs := pool.mem.mbufs;
      IncomingRow(mbufs, tags, r, Flat(recs));
      if lastrecord.Some? {
        ghost var k := |recs| - 1;
        ghost var init, c := recs[..k], recs[k];
        assert recs == init + [c];
        LinkShape(mbufs, tags, init, c, r);
        SumConcat(mbufs, Linking(tags, c[0], m0), Flat(recs), r);
        LeadIn(recs);
        tags := Linking(tags, lastrecord.value, m0);
        assert Lead(recs + [r], 0, None) == Lead(recs, 0, None);
      } else {
        ShapeOne(mbufs, tags, r, None);
        ShapeNone(mbufs, tags, None);
        assert [] + r == r;
        SumNone(mbufs, tags);
        mb := Some(m0);
      }
      lastrecord := Some(m0);
      recs := recs + [r];
      assert old(recs) == [] ==> recs == [r];
    }

    // ---- sbcompress ----

    ghost predicate Mid(rest: seq<Id>)
      reads this, pool
    {
      MidOk(pool.mem, tags, recs, sums, mb, mbtail, lastrecord, rest)
    }

    /** An empty mbuf of no consequence is released. */
    method DropOne(m: Id, ghost rest: seq<Id>) returns (next: Option<Id>)
      requires Mid(rest) && rest != [] && rest[0] == m && Len(pool.mem, m) == 0
      modifies this`lastrecord, pool`mem
      ensures Mid(rest[1..]) && next == Head(rest[1..], None)
      ensures Conserved(old(pool.mem), recs, rest, pool.mem, recs, rest[1..])
    {
      hide MidOk, Conserved, FreeOne;
      DropOk(pool.mem, tags, recs, sums, mb, mbtail, lastrecord, rest);
      next := pool.mem.mbufs[m].next;
      if lastrecord == Some(m) { lastrecord := next; }
      pool.mem := FreeOne(pool.mem, m);
    }

    /** The last mbuf takes the bytes. */
    method MergeOne(n: Id, m: Id, ghost rest: seq<Id>) returns (next: Option<Id>)
      requires Mid(rest) && rest != [] && rest[0] == m && mbtail == Some(n) && m in tags && n in tags
      requires Len(pool.mem, m) <= Trailing(pool.mem, n) && tags[m].kind == tags[n].kind
      modifies this`sums, pool`mem
      ensures Mid(rest[1..]) && next == Head(rest[1..], None)
      ensures Conserved(old(pool.mem), recs, rest, pool.mem, recs, rest[1..])
    {
      hide MidOk, Conserved, Absorb, AbsorbFits, Trailing;
      MidThere(pool.mem, tags, recs, sums, mb, mbtail, lastrecord, rest);
      MergeOk(pool.mem, tags, recs, sums, mb, mbtail, lastrecord, rest);
      next := pool.mem.mbufs[m].next;
      var count := pool.mem.mbufs[m].len;
      pool.mem := Absorb(pool.mem, n, m, None);
      sums := Sums(sums.len + count, if tags[m].kind.Other? then sums.ctl + count else sums.ctl, sums.cnt);
    }

    /** The mbuf itself goes to the end. */
    method LinkOne(n: Option<Id>, m: Id, ghost rest: seq<Id>) returns (next: Option<Id>)
      requires Mid(rest) && rest != [] && rest[0] == m && mbtail == n
      modifies this`sums, this`tags, this`mb, this`mbtail, this`recs, pool`mem
      ensures Mid(rest[1..]) && next == Head(rest[1..], None) && mbtail == Some(m)
      ensures Conserved(old(pool.mem), old(recs), rest, pool.mem, recs, rest[1..]) && recs == Pushed(old(recs), m)
    {
      hide MidOk, Conserved, Weight, Pushed;
      MidThere(pool.mem, tags, recs, sums, mb, mbtail, lastrecord, rest);
      if n.Some? {
        LinkNextOk(pool.mem, tags, recs, sums, mb, mbtail, lastrecord, rest);
        next := pool.mem.mbufs[m].next;
        Sballoc(m);
        pool.mem := SetNext(pool.mem, n.value, Some(m));
      } else {
        LinkFirstOk(pool.mem, tags, recs, sums, mb, mbtail, lastrecord, rest);
        next := pool.mem.mbufs[m].next;
        Sballoc(m);
        mb := Some(m);
      }
      mbtail := Some(m);
      tags := Unmarked(tags, m);
      pool.mem := SetNext(pool.mem, m, None);
      recs := Pushed(recs, m);
    }

    /** One turn: an mbuf is dropped, merged or linked. */
    method CompressOne(m: Id, n: Option<Id>, eor0: bool, ghost rest: seq<Id>)
      returns (next: Option<Id>, n': Option<Id>, eor: bool)
      requires Mid(rest) && rest != [] && rest[0] == m && mbtail == n
      modifies this`tags, this`sums, this`mb, this`mbtail, this`lastrecord, this`recs, pool`mem
      ensures Mid(rest[1..]) && next == Head(rest[1..], None) && n' == mbtail && (eor ==> n'.Some? || |rest| > 1)
      ensures Conserved(old(pool.mem), old(recs), rest, pool.mem, recs, rest[1..]) && Grown(old(recs), recs)
    {
      hide MidOk, Conserved, Trailing, Writable, Pushed;
      MidThere(pool.mem, tags, recs, sums, mb, mbtail, lastrecord, rest);
      PushedGrows(recs, m);
      n' := n;
      eor := eor0 || tags[m].eor;
      var o := if pool.mem.mbufs[m].next.Some? then pool.mem.mbufs[m].next else n;
      if Len(pool.mem, m) == 0 && (!eor || (o.Some? && tags[o.value].kind == tags[m].kind)) {
        next := DropOne(m, rest);
      } else if n.Some? && !tags[n.value].eor && Writable(pool.mem, n.value)
             && !noCoalesce && !tags[m].notReady && !tags[n.value].notReady
             && Len(pool.mem, m) <= MCLBYTES / 4 && Len(pool.mem, m) <= Trailing(pool.mem, n.value)
             && tags[n.value].kind == tags[m].kind {
        next := MergeOne(n.value, m, rest);
      } else {
        next := LinkOne(n, m, rest);
        n' := Some(m);
      }
    }

    /** sbcompress: add a chain behind n, the end of the last record. */
    method Compress(m0: Option<Id>, n0: Option<Id>, ghost w: seq<Id>)
      requires Mid(w) && m0 == Head(w, None) && n0 == mbtail
      modifies this`tags, this`sums, this`mb, this`mbtail, this`lastrecord, this`recs, pool`mem
      ensures Valid() && Conserved(old(pool.mem), old(recs), w, pool.mem, recs, []) && Grown(old(recs), recs)
    {
      hide MidOk, Conserved, Grown;
      ghost var mem0, recs0, rest := pool.mem, recs, w;
      var m, n, eor := m0, n0, false;
      Start(mem0, recs0, w);
      while m.Some?
        invariant Mid(rest) && m == Head(rest, None) && n == mbtail && (eor ==> n.Some? || rest != [])
        invariant Conserved(mem0, recs0, w, pool.mem, recs, rest) && Grown(recs0, recs)
        decreases |rest|
      {
        ghost var mem1, recs1 := pool.mem, recs;
        m, n, eor := CompressOne(m.value, n, eor, rest);
        ConservedTrans(mem0, recs0, w, mem1, recs1, rest, pool.mem, recs, rest[1..]);
        GrownTrans(recs0, recs1, recs);
        rest := rest[1..];
      }
      MidThere(pool.mem, tags, recs, sums, mb, mbtail, lastrecord, rest);
      if eor {
        MarkOk(pool.mem, tags, recs, sums, mb, mbtail, lastrecord, n.value);
        tags := tags[n.value := tags[n.value].(eor := true)];
      }
      MidEnd(pool.mem, tags, recs, sums, mb, mbtail, lastrecord);
    }

    // ---- Records ----

    /** sbappendrecord_locked: a chain begins a new record. */
    method AppendRecord(m0: Option<Id>, ghost w: seq<Id>)
      requires Valid() && m0 == Head(w, None) && Incoming(pool.mem.mbufs, tags, w, Flat(recs))
      modifies this`tags, this`sums, this`mb, this`mbtail, this`lastrecord, this`recs, pool`mem
      ensures Valid() && Conserved(old(pool.mem), old(recs), w, pool.mem, recs, [])
      ensures if w == [] then recs == old(recs) else Began(old(recs), recs, w[0])
    {
      hide Conserved, Kept, Incoming, Flat, SetNext, Began, Grown;
      ghost var mem0, recs0 := pool.mem, recs;
      Start(mem0, recs0, w);
      if m0.None? { return; }
      IncomingTail(mem0, tags, w, Flat(recs));
      BeginTurn(mem0, tags, recs, sums, w);
      var m := pool.mem.mbufs[m0.value].next;
      pool.mem := SetNext(pool.mem, m0.value, None);
      NewRecord(m0.value, w);
      ghost var mem1 := pool.mem;
      MoveMark(m0.value, m, w);
      Compress(m, m0, w[1..]);
      ConservedTrans(mem0, recs0, w, mem1, recs0 + [[m0.value]], w[1..], pool.mem, recs, []);
      BeganBy(recs0, recs, m0.value);
    }

    /** The first mbuf is accounted for and linked as a record of its own. */
    method NewRecord(m0: Id, ghost w: seq<Id>)
      requires Valid() && w != [] && w[0] == m0 && Incoming(pool.mem.mbufs, tags, [m0], Flat(recs))
      requires Incoming(pool.mem.mbufs, tags, w[1..], Flat(recs) + [m0])
      modifies this`tags, this`sums, this`mb, this`mbtail, this`lastrecord, this`recs
      ensures recs == old(recs) + [[m0]] && mbtail == Some(m0) && Mid(w[1..])
      ensures Relinked(old(tags), tags, old(Flat(recs)))
    {
      hide Incoming, Flat, Sum, Shape, Ok, Relinked;
      IncomingRow(pool.mem.mbufs, tags, [m0], Flat(recs));
      SumOne(pool.mem.mbufs, tags, m0);
      ghost var tags0, flat0 := tags, Flat(recs);
      Sballoc(m0);
      LinkRecord(m0, [m0]);
      mbtail := Some(m0);
      StillIncoming(pool.mem.mbufs, tags0, tags, w[1..], flat0, flat0 + [m0]);
    }

    /** An end-of-record mark on the first mbuf moves to the next. */
    method MoveMark(m0: Id, m: Option<Id>, ghost w: seq<Id>)
      requires |w| > 0 && Mid(w[1..]) && w[0] == m0 && mbtail == Some(m0) && m == Head(w[1..], None)
      modifies this`tags
      ensures Mid(w[1..])
    {
      hide MidOk;
      MidThere(pool.mem, tags, recs, sums, mb, mbtail, lastrecord, w[1..]);
      if m.Some? && tags[m0].eor {
        ghost var tags0 := tags;
        tags := tags[m0 := tags[m0].(eor := false)];
        tags := tags[m.value := tags[m.value].(eor := true)];
        MidRetag(pool.mem, tags0, tags, recs, sums, mb, mbtail, lastrecord, w[1..]);
      }
    }

    /** The first mbuf of the last record, found through m_nextpkt. */
    method FindLast() returns (n: Id)
      requires Valid() && mb.Some?
      ensures recs != [] && lastrecord == Some(n)
    {
      hide Ok, Flat, Sum;
      n := mb.value;
      ghost var r: nat := 0;
      RecordAt(pool.mem, tags, recs, sums, r);
      while tags[n].pkt.Some?
        invariant r < |recs| && recs[r] != [] && n == recs[r][0] && n in tags
        invariant tags[n].pkt == Lead(recs, r + 1, None) && r + 1 <= |recs|
        decreases |recs| - r
      {
        n := tags[n].pkt.value;
        r := r + 1;
        RecordAt(pool.mem, tags, recs, sums, r);
      }
    }

    /** Whether a record has ended, and its last mbuf. */
    method FindEnd(first: Id, ghost c: seq<Id>) returns (ended: bool, n: Id)
      requires LinkedTo(pool.mem.mbufs, c, None) && Tagged(tags, c) && c != [] && c[0] == first
      ensures ended == AnyEor(tags, c) && (!ended ==> n == c[|c| - 1])
    {
      hide Distinct;
      n, ended := first, false;
      ghost var k: nat := 0;
      while true
        invariant k < |c| && n == c[k] && forall i :: 0 <= i < k ==> c[i] in tags && !tags[c[i]].eor
        decreases |c| - k
      {
        assert n in c;
        if tags[n].eor {
          ended := true;
          return;
        }
        if pool.mem.mbufs[n].next.None? { break; }
        n := pool.mem.mbufs[n].next.value;
        k := k + 1;
      }
    }

    /** sbappend_locked: add to the last record, or begin a new one if that has ended. */
    method Append(m0: Option<Id>, ghost w: seq<Id>)
      requires Valid() && m0 == Head(w, None) && Incoming(pool.mem.mbufs, tags, w, Flat(recs))
      modifies this`tags, this`sums, this`mb, this`mbtail, this`lastrecord, this`recs, pool`mem
      ensures Valid() && Conserved(old(pool.mem), old(recs), w, pool.mem, recs, [])
      ensures if w != [] && Ended(old(tags), old(recs)) then Began(old(recs), recs, w[0]) else Grown(old(recs), recs)
    {
      hide Conserved, Incoming, Began, Grown, Flat, Kept, AnyEor, Row;
      Start(pool.mem, recs, w);
      if m0.None? { return; }
      if mb.Some? {
        var first := FindLast();
        RecordAt(pool.mem, tags, recs, sums, |recs| - 1);
        var ended, n := FindEnd(first, recs[|recs| - 1]);
        if ended {
          AppendRecord(m0, w);
        } else {
          Compress(m0, Some(n), w);
        }
      } else {
        NoRecord();
        lastrecord := m0;
        Compress(m0, None, w);
      }
    }

    lemma {:induction false} NoRecord()
      requires Valid() && mb.None?
      ensures recs == [] && lastrecord == None && mbtail == None
    {
      if recs != [] { RecordAt(pool.mem, tags, recs, sums, 0); }
    }

    // ---- Whole chains as records ----

    /** A chain whose mbufs are all kept as they are becomes a record. */
    method AppendWhole(first: Id, ghost w: seq<Id>)
      requires Valid() && w != [] && w[0] == first && Incoming(pool.mem.mbufs, tags, w, Flat(recs))
      modifies this`tags, this`sums, this`mb, this`mbtail, this`lastrecord, this`recs
      ensures Valid() && recs == old(recs) + [w]
    {
      hide Sum, Flat, Kept;
      ghost var sums0 := sums;
      var n := AllocAll(first, w);
      FinishWhole(first, n, sums0, w);
    }

    /** sballoc for each mbuf of a chain. */
    method AllocAll(first: Id, ghost w: seq<Id>) returns (n: Id)
      requires LinkedTo(pool.mem.mbufs, w, None) && Tagged(tags, w) && w != [] && w[0] == first
      modifies this`sums
      ensures n == w[|w| - 1] && sums == Plus(old(sums), Sum(pool.mem.mbufs, tags, w))
    {
      hide Sum, Distinct, Weight;
      n := first;
      ghost var k: nat, sums0, mbufs := 0, sums, pool.mem.mbufs;
      SumNone(mbufs, tags);
      assert w[..0] == [];
      while pool.mem.mbufs[n].next.Some?
        invariant k < |w| && n == w[k] && sums == Plus(sums0, Sum(mbufs, tags, w[..k]))
        decreases |w| - k
      {
        assert n in w;
        SumStep(mbufs, tags, w, k);
        Sballoc(n);
        n := pool.mem.mbufs[n].next.value;
        k := k + 1;
      }
      assert n in w;
      SumStep(mbufs, tags, w, k);
      Sballoc(n);
      assert w[..k + 1] == w;
    }

    method FinishWhole(first: Id, last: Id, ghost sums0: Sums, ghost w: seq<Id>)
      requires Kept(pool.mem, tags, recs, sums0) && mb == Lead(recs, 0, None) && Tails(recs, mbtail, lastrecord)
      requires w != [] && w[0] == first && w[|w| - 1] == last && Incoming(pool.mem.mbufs, tags, w, Flat(recs))
      requires sums == Plus(sums0, Sum(pool.mem.mbufs, tags, w))
      modifies this`tags, this`mb, this`mbtail, this`lastrecord, this`recs
      ensures Valid() && recs == old(recs) + [w]
    {
      hide Incoming, Sum, Flat, Shape, Ok;
      LinkRecord(first, w);
      mbtail := Some(last);
    }

    /** sbappendcontrol_locked: control data and then data, as one record. */
    method AppendControl(control: Id, m0: Option<Id>, ghost a: seq<Id>, ghost b: seq<Id>)
      requires Valid() && a != [] && a[0] == control && m0 == Head(b, None) && Apart(a, b)
      requires Incoming(pool.mem.mbufs, tags, a, Flat(recs)) && Incoming(pool.mem.mbufs, tags, b, Flat(recs))
      modifies this`tags, this`sums, this`mb, this`mbtail, this`lastrecord, this`recs, pool`mem
      ensures Valid() && recs == old(recs) + [a + b]
      ensures Contents() == old(Contents()) + ChainBytes(old(pool.mem), a) + ChainBytes(old(pool.mem), b)
      ensures Untouched(old(pool.mem), pool.mem, Members(a))
    {
      hide Incoming, Kept, Flat, SetNext, Untouched, ChainBytes;
      IncomingLinked(pool.mem.mbufs, tags, a, Flat(recs));
      var last := pool.Last(control, a);
      ghost var mem0, flat0 := pool.mem, Flat(recs);
      JoinTurn(mem0, tags, recs, sums, a, b);
      pool.mem := SetNext(pool.mem, last, m0);
      AppendWhole(control, a + b);
      WholeBytes(pool.mem, old(recs), a + b);
    }
  }

  /** In the middle of adding a chain: rest is still outside. A buffer that is empty so far has
      sb_lastrecord set in advance. */
  ghost predicate MidOk(mem: Mem, tags: Tags, recs: seq<seq<Id>>, sums: Sums, mb: Option<Id>, mbtail: Option<Id>,
                        lastrecord: Option<Id>, rest: seq<Id>)
  {
    && Kept(mem, tags, recs, sums) && mb == Lead(recs, 0, None) && Incoming(mem.mbufs, tags, rest, Flat(recs))
    && if recs == [] then mbtail == None && lastrecord == Head(rest, None) else Tails(recs, mbtail, lastrecord)
  }

  /** Of the mbufs that were, those that are not among now have been released. */
  ghost predicate NoneLost(mem: Mem, mem': Mem, was: set<Id>, now: set<Id>) {
    forall x :: x in mem'.mbufs ==> (x in mem.mbufs && x !in was) || x in now
  }

  /** Nothing but the head of rest is released. */
  lemma {:induction false} HeadLost(mem: Mem, mem': Mem, p: seq<Id>, p': seq<Id>, rest: seq<Id>)
    requires rest != [] && (forall x :: x in p ==> x in p')
    requires forall x :: x in mem'.mbufs ==> x in mem.mbufs && (x != rest[0] || x in p')
    ensures NoneLost(mem, mem', Members(p) + Members(rest), Members(p') + Members(rest[1..]))
  {
    assert forall x :: x in rest ==> x == rest[0] || x in rest[1..];
  }

  /** What is in the buffer and what is still to come, together, are the same bytes as before, nobody
      else was touched, and no mbuf is lost. */
  ghost predicate Conserved(mem: Mem, recs: seq<seq<Id>>, rest: seq<Id>, mem': Mem, recs': seq<seq<Id>>,
                            rest': seq<Id>) {
    && ChainBytes(mem', Flat(recs')) + ChainBytes(mem', rest') == ChainBytes(mem, Flat(recs)) + ChainBytes(mem, rest)
    && Untouched(mem, mem', Members(Flat(recs)) + Members(rest))
    && (forall x :: x in Flat(recs') || x in rest' ==> x in Flat(recs) || x in rest)
    && NoneLost(mem, mem', Members(Flat(recs)) + Members(rest), Members(Flat(recs')) + Members(rest'))
  }

  lemma {:induction false} ConservedTrans(m0: Mem, r0: seq<seq<Id>>, w0: seq<Id>, m1: Mem, r1: seq<seq<Id>>,
                                          w1: seq<Id>, m2: Mem, r2: seq<seq<Id>>, w2: seq<Id>)
    requires Conserved(m0, r0, w0, m1, r1, w1) && Conserved(m1, r1, w1, m2, r2, w2)
    ensures Conserved(m0, r0, w0, m2, r2, w2)
  {
    hide Untouched, ChainBytes, Flat;
    UntouchedTrans(m0, m1, m2, Members(Flat(r0)) + Members(w0), Members(Flat(r1)) + Members(w1));
  }

  /** m at the end of the last record, or as the first. */
  ghost function Pushed(recs: seq<seq<Id>>, m: Id): seq<seq<Id>> {
    if recs == [] then [[m]] else recs[..|recs| - 1] + [recs[|recs| - 1] + [m]]
  }

  function Unmarked(tags: Tags, m: Id): Tags
    requires m in tags
  {
    tags[m := tags[m].(eor := false)]
  }

  lemma {:induction false} MidThere(mem: Mem, tags: Tags, recs: seq<seq<Id>>, sums: Sums, mb: Option<Id>,
                                    mbtail: Option<Id>, lastrecord: Option<Id>, rest: seq<Id>)
    requires MidOk(mem, tags, recs, sums, mb, mbtail, lastrecord, rest)
    ensures rest != [] ==> rest[0] in mem.mbufs && rest[0] in tags && mem.mbufs[rest[0]].next == Head(rest[1..], None)
    ensures mbtail.Some? ==> mbtail.value in mem.mbufs && mbtail.value in tags
    ensures mbtail.None? <==> recs == []
    ensures |rest| > 1 ==> rest[1] in tags
  {
    hide Kept, Incoming, Flat;
    if rest != [] { IncomingTail(mem, tags, rest, Flat(recs)); }
    if |rest| > 1 {
      IncomingTail(mem, tags, rest[1..], Flat(recs));
      assert rest[1..][0] == rest[1];
    }
    if recs != [] {
      assert recs == recs[..|recs| - 1] + [recs[|recs| - 1]];
      LastIs(mem, tags, recs[..|recs| - 1], recs[|recs| - 1], sums, rest);
    }
  }

  lemma {:induction false} DropOk(mem: Mem, tags: Tags, recs: seq<seq<Id>>, sums: Sums, mb: Option<Id>,
                                  mbtail: Option<Id>, lastrecord: Option<Id>, rest: seq<Id>)
    requires MidOk(mem, tags, recs, sums, mb, mbtail, lastrecord, rest) && rest != [] && Len(mem, rest[0]) == 0
    ensures rest[0] in mem.mbufs && mem.mbufs[rest[0]].next == Head(rest[1..], None)
    ensures var last := if lastrecord == Some(rest[0]) then Head(rest[1..], None) else lastrecord;
            MidOk(FreeOne(mem, rest[0]), tags, recs, sums, mb, mbtail, last, rest[1..])
    ensures Conserved(mem, recs, rest, FreeOne(mem, rest[0]), recs, rest[1..])
  {
    hide Kept, Incoming, Untouched, ChainBytes, Flat, FreeOne, Sum;
    IncomingTail(mem, tags, rest, Flat(recs));
    DropTurn(mem, tags, recs, sums, rest);
    if recs != [] { LeadIn(recs); }
    assert rest[0] in rest && forall x :: x in rest[1..] ==> x in rest;
    UntouchedWiden(mem, FreeOne(mem, rest[0]), {rest[0]}, Members(Flat(recs)) + Members(rest));
    KeptOk(mem, tags, recs, sums);
    FreeLost(mem, rest[0]);
    HeadLost(mem, FreeOne(mem, rest[0]), Flat(recs), Flat(recs), rest);
  }

  lemma {:induction false} FreeLost(mem: Mem, m: Id)
    requires Ok(mem) && m in mem.mbufs
    ensures forall x :: x in FreeOne(mem, m).mbufs ==> x in mem.mbufs && x != m
  {
  }

  lemma {:induction false} MergeOk(mem: Mem, tags: Tags, recs: seq<seq<Id>>, sums: Sums, mb: Option<Id>,
                                   mbtail: Option<Id>, lastrecord: Option<Id>, rest: seq<Id>)
    requires MidOk(mem, tags, recs, sums, mb, mbtail, lastrecord, rest) && rest != [] && mbtail.Some?
    requires mbtail.value in tags
    requires Len(mem, rest[0]) <= Trailing(mem, mbtail.value)
    ensures AbsorbFits(mem, mbtail.value, rest[0]) && mem.mbufs[rest[0]].next == Head(rest[1..], None)
    ensures var n, m := mbtail.value, rest[0]; var mem', len := Absorb(mem, n, m, None), mem.mbufs[m].len;
            && MidOk(mem', tags, recs,
                     Sums(sums.len + len, if tags[n].kind.Other? then sums.ctl + len else sums.ctl, sums.cnt),
                     mb, mbtail, lastrecord, rest[1..])
            && Conserved(mem, recs, rest, mem', recs, rest[1..])
  {
    hide Kept, Incoming, Untouched, ChainBytes, Flat, Absorb, AbsorbFits, Sum, Trailing, Turned, LinkedTo, SameTags,
         SamePkts, NoneLost, Conserved;
    var init, c := recs[..|recs| - 1], recs[|recs| - 1];
    assert recs == init + [c];
    LastIs(mem, tags, init, c, sums, rest);
    MergeTurn(mem, tags, c, rest);
    var n, m, len := mbtail.value, rest[0], Len(mem, rest[0]);
    OneTag(tags, n, tags[n]);
    assert tags[n := tags[n]] == tags;
    TurnRecs(mem, Absorb(mem, n, m, None), tags, tags, init, c, rest, c, rest[1..], sums,
             Sums(len, if tags[n].kind.Other? then len else 0, 0));
    TurnConserved(mem, Absorb(mem, n, m, None), init, c, rest, c, rest[1..]);
    AbsorbThere(mem, n, m);
  }

  lemma {:induction false} AbsorbThere(mem: Mem, n: Id, m: Id)
    requires AbsorbFits(mem, n, m)
    ensures m in mem.mbufs && n in mem.mbufs
  {
  }

  lemma {:induction false} LinkNextOk(mem: Mem, tags: Tags, recs: seq<seq<Id>>, sums: Sums, mb: Option<Id>,
                                      mbtail: Option<Id>, lastrecord: Option<Id>, rest: seq<Id>)
    requires MidOk(mem, tags, recs, sums, mb, mbtail, lastrecord, rest) && rest != [] && mbtail.Some?
    ensures rest[0] in mem.mbufs && rest[0] in tags && mbtail.value in mem.mbufs
    ensures var mem' := Appended(mem, mbtail.value, rest[0]);
            && MidOk(mem', Unmarked(tags, rest[0]), Pushed(recs, rest[0]), Plus(sums, Weight(mem.mbufs, tags, rest[0])),
                     mb, Some(rest[0]), lastrecord, rest[1..])
            && Conserved(mem, recs, rest, mem', Pushed(recs, rest[0]), rest[1..])
  {
    hide Kept, Incoming, Untouched, ChainBytes, Flat, SetNext, Sum, Turned, LinkedTo, SameTags, SamePkts, Weight,
         Appended, NoneLost, Conserved;
    MidThere(mem, tags, recs, sums, mb, mbtail, lastrecord, rest);
    var n, m := mbtail.value, rest[0];
    var init, c := recs[..|recs| - 1], recs[|recs| - 1];
    assert recs == init + [c];
    LastIs(mem, tags, init, c, sums, rest);
    OneTag(tags, m, tags[m].(eor := false));
    LinkTurn(mem, tags, c, rest);
    var mem', tags', c' := Appended(mem, n, m), Unmarked(tags, m), c + [m];
    SumEor(mem'.mbufs, tags, tags', c');
    assert m in rest && m !in Flat(init);
    TurnRecs(mem, mem', tags, tags', init, c, rest, c', rest[1..], sums, Weight(mem.mbufs, tags, m));
    TurnConserved(mem, mem', init, c, rest, c', rest[1..]);
  }

  lemma {:induction false} LinkFirstOk(mem: Mem, tags: Tags, recs: seq<seq<Id>>, sums: Sums, mb: Option<Id>,
                                       mbtail: Option<Id>, lastrecord: Option<Id>, rest: seq<Id>)
    requires MidOk(mem, tags, recs, sums, mb, mbtail, lastrecord, rest) && rest != [] && mbtail.None?
    ensures rest[0] in mem.mbufs && rest[0] in tags
    ensures var mem' := SetNext(mem, rest[0], None);
            && MidOk(mem', Unmarked(tags, rest[0]), Pushed(recs, rest[0]), Plus(sums, Weight(mem.mbufs, tags, rest[0])),
                     Some(rest[0]), Some(rest[0]), lastrecord, rest[1..])
            && Conserved(mem, recs, rest, mem', Pushed(recs, rest[0]), rest[1..])
  {
    hide Incoming, Untouched, ChainBytes, SetNext, Sum, LinkedTo, SameTags, SamePkts, Ok, Shape, Weight;
    MidThere(mem, tags, recs, sums, mb, mbtail, lastrecord, rest);
    var m := rest[0];
    assert Flat(recs) == [] && m in rest && forall x :: x in rest[1..] ==> x in rest;
    OneTag(tags, m, tags[m].(eor := false));
    FirstTurn(mem, tags, Unmarked(tags, m), rest);
    SumNone(mem.mbufs, tags);
    NoBytes(mem);
    assert [] + ChainBytes(mem, rest) == ChainBytes(mem, rest);
    UntouchedWiden(mem, SetNext(mem, m, None), {m}, Members(Flat(recs)) + Members(rest));
    NextLive(mem, m, None);
    HeadLost(mem, SetNext(mem, m, None), Flat(recs), [m], rest);
    assert Plus(Sums(0, 0, 0), Weight(mem.mbufs, tags, m)) == Weight(mem.mbufs, tags, m);
  }

  /** Only the end-of-record mark of m changes. */
  lemma {:induction false} OneTag(tags: Tags, m: Id, t: Tag)
    requires m in tags && t.kind == tags[m].kind && t.ext == tags[m].ext && t.pkt == tags[m].pkt
    ensures SameTags(tags, tags[m := t]) && SamePkts(tags, tags[m := t])
  {
  }

  lemma {:induction false} SumEor(mbufs: map<Id, Mbuf>, tags: Tags, tags': Tags, c: seq<Id>)
    requires SameTags(tags, tags') && tags'.Keys == tags.Keys
    ensures Sum(mbufs, tags', c) == Sum(mbufs, tags, c)
  {
    SumTags(mbufs, tags, tags', c);
  }

  lemma {:induction false} LeadIn(recs: seq<seq<Id>>)
    requires recs != [] && recs[|recs| - 1] != []
    ensures recs[|recs| - 1][0] in Flat(recs)
  {
    FlatHas(recs, |recs| - 1, recs[|recs| - 1][0]);
  }

  /** The last record and the rest, apart from the other records. */
  lemma {:induction false} LastIs(mem: Mem, tags: Tags, init: seq<seq<Id>>, c: seq<Id>, sums: Sums, rest: seq<Id>)
    requires Kept(mem, tags, init + [c], sums) && Incoming(mem.mbufs, tags, rest, Flat(init + [c]))
    ensures Ok(mem) && c != [] && LinkedTo(mem.mbufs, c, None) && LinkedTo(mem.mbufs, rest, None) && Apart(c, rest)
    ensures c[|c| - 1] in tags && c[|c| - 1] in mem.mbufs && Flat(init + [c]) == Flat(init) + c
    ensures forall x :: x in rest ==> x !in Flat(init)
  {
    ShapeSplit(mem.mbufs, tags, init, [c], None);
    ShapeOne(mem.mbufs, tags, c, None);
    assert c[|c| - 1] in c;
    assert forall x :: x in c || x in Flat(init) ==> x in Flat(init) + c;
  }

  lemma {:induction false} TurnConserved(mem: Mem, mem': Mem, init: seq<seq<Id>>, c: seq<Id>, rest: seq<Id>,
                                         c': seq<Id>, rest': seq<Id>)
    requires Turned(mem, mem', c, rest, c', rest')
    requires ChainBytes(mem', Flat(init + [c'])) + ChainBytes(mem', rest')
               == ChainBytes(mem, Flat(init + [c])) + ChainBytes(mem, rest)
    ensures Conserved(mem, init + [c], rest, mem', init + [c'], rest')
  {
    FlatConcat(init, [c]);
    FlatOne(c);
    FlatConcat(init, [c']);
    FlatOne(c');
    hide Untouched, Flat, ChainBytes, LinkedTo, Ok;
    UntouchedWiden(mem, mem', Members(c) + Members(rest), Members(Flat(init + [c])) + Members(rest));
  }

  lemma {:induction false} IncomingRow(mbufs: map<Id, Mbuf>, tags: Tags, w: seq<Id>, flat: seq<Id>)
    requires Incoming(mbufs, tags, w, flat) && w != []
    ensures Row(mbufs, tags, w, None) && Tagged(tags, w) && Distinct(w) && Apart(flat, w) && w[0] in mbufs
    ensures w[0] in tags
  {
    assert w[0] in w;
  }

  lemma {:induction false} SumNone(mbufs: map<Id, Mbuf>, tags: Tags)
    ensures Sum(mbufs, tags, []) == Sums(0, 0, 0)
  {
  }

  /** Only m_nextpkt of mbufs in flat changed. */
  ghost predicate Relinked(tags: Tags, tags': Tags, flat: seq<Id>) {
    && tags'.Keys == tags.Keys && SameTags(tags, tags')
    && (forall x :: x in tags && x in tags' ==> tags'[x].eor == tags[x].eor && tags'[x].notReady == tags[x].notReady)
    && forall x :: x in tags && x in tags' && x !in flat ==> tags'[x] == tags[x]
  }

  /** Tags keep what the sums depend on. */
  ghost predicate SameTags(tags: Tags, tags': Tags) {
    forall x :: x in tags ==> x in tags' && tags'[x].kind == tags[x].kind && tags'[x].ext == tags[x].ext
  }

  // ---- Frames ----

  lemma {:induction false} BytesFrame(mem: Mem, mem': Mem, c: seq<Id>, d: set<Id>)
    requires Untouched(mem, mem', d) && forall x :: x in c ==> x in mem.mbufs && x !in d
    ensures ChainBytes(mem', c) == ChainBytes(mem, c)
  {
    forall i | 0 <= i < |c| ensures Bytes(mem', c[i]) == Bytes(mem, c[i]) { assert c[i] in c; }
    SameBytes(mem, mem', c);
  }

  /** Memory changed only outside the records. */
  lemma {:induction false} KeptFrame(mem: Mem, mem': Mem, tags: Tags, recs: seq<seq<Id>>, sums: Sums, d: set<Id>)
    requires Kept(mem, tags, recs, sums) && Ok(mem') && Untouched(mem, mem', d)
    requires forall x :: x in Flat(recs) ==> x !in d
    ensures Kept(mem', tags, recs, sums) && ChainBytes(mem', Flat(recs)) == ChainBytes(mem, Flat(recs))
  {
    ShapeIn(mem.mbufs, tags, recs, None);
    assert Same(mem.mbufs, tags, mem'.mbufs, tags, Flat(recs));
    hide Ok, Shape, Flat, Sum;
    ShapeFrame(mem.mbufs, tags, mem'.mbufs, tags, recs, None);
    BytesFrame(mem, mem', Flat(recs), d);
  }

  lemma {:induction false} IncomingTail(mem: Mem, tags: Tags, rest: seq<Id>, flat: seq<Id>)
    requires rest != [] && Incoming(mem.mbufs, tags, rest, flat)
    ensures rest[0] in mem.mbufs && rest[0] in tags && rest[0] !in flat && rest[0] !in rest[1..]
    ensures mem.mbufs[rest[0]].next == Head(rest[1..], None) && Incoming(mem.mbufs, tags, rest[1..], flat)
    ensures ChainBytes(mem, rest) == Bytes(mem, rest[0]) + ChainBytes(mem, rest[1..])
  {
    var m, r := rest[0], rest[1..];
    assert rest == [m] + r && m in rest;
    NextIs(mem.mbufs, [], m, r);
    SegSplit(mem.mbufs, [m], r, None);
    assert m in [m];
    assert forall x :: x in r ==> x in rest;
  }

  lemma {:induction false} IncomingFrame(mem: Mem, mem': Mem, tags: Tags, rest: seq<Id>, flat: seq<Id>, d: set<Id>)
    requires Incoming(mem.mbufs, tags, rest, flat) && Untouched(mem, mem', d) && forall x :: x in rest ==> x !in d
    ensures Incoming(mem'.mbufs, tags, rest, flat) && ChainBytes(mem', rest) == ChainBytes(mem, rest)
  {
    hide Untouched, LinkedTo;
    SegFrame(mem, mem', rest, None, d);
  }

  // ---- The turns of sbcompress ----

  /** The first of the rest is released. */
  lemma {:induction false} DropTurn(mem: Mem, tags: Tags, recs: seq<seq<Id>>, sums: Sums, rest: seq<Id>)
    requires Kept(mem, tags, recs, sums) && Incoming(mem.mbufs, tags, rest, Flat(recs)) && rest != []
    requires Len(mem, rest[0]) == 0
    ensures var mem' := FreeOne(mem, rest[0]);
            && Kept(mem', tags, recs, sums) && Incoming(mem'.mbufs, tags, rest[1..], Flat(recs))
            && Untouched(mem, mem', {rest[0]})
            && ChainBytes(mem', Flat(recs)) == ChainBytes(mem, Flat(recs))
            && ChainBytes(mem', rest[1..]) == ChainBytes(mem, rest)
  {
    IncomingTail(mem, tags, rest, Flat(recs));
    ChainLength(mem, [], rest[0]);
    hide Ok, Untouched, FreeOne, Incoming, ChainBytes, Shape, Sum, Flat;
    FreeAny(mem, rest[0]);
    KeptFrame(mem, FreeOne(mem, rest[0]), tags, recs, sums, {rest[0]});
    IncomingFrame(mem, FreeOne(mem, rest[0]), tags, rest[1..], Flat(recs), {rest[0]});
    assert Bytes(mem, rest[0]) == [];
    assert [] + ChainBytes(mem, rest[1..]) == ChainBytes(mem, rest[1..]);
  }

  /** What happens to the last record's chain and the rest, seen apart from the other records. */
  ghost predicate Turned(mem: Mem, mem': Mem, c: seq<Id>, rest: seq<Id>, c': seq<Id>, rest': seq<Id>) {
    && Ok(mem') && c' != [] && LinkedTo(mem'.mbufs, c', None) && LinkedTo(mem'.mbufs, rest', None) && Apart(c', rest')
    && ChainBytes(mem', c') + ChainBytes(mem', rest') == ChainBytes(mem, c) + ChainBytes(mem, rest)
    && Untouched(mem, mem', Members(c) + Members(rest)) && (forall x :: x in rest' ==> x in rest)
    && (forall x :: x in c' ==> x in c || x in rest)
    && NoneLost(mem, mem', Members(c) + Members(rest), Members(c') + Members(rest'))
  }

  lemma {:induction false} TurnRecs(mem: Mem, mem': Mem, tags: Tags, tags': Tags, init: seq<seq<Id>>, c: seq<Id>,
                                    rest: seq<Id>, c': seq<Id>, rest': seq<Id>, sums: Sums, w: Sums)
    requires Kept(mem, tags, init + [c], sums) && Incoming(mem.mbufs, tags, rest, Flat(init + [c])) && c != []
    requires Turned(mem, mem', c, rest, c', rest') && c'[0] == c[0]
    requires SameTags(tags, tags') && SamePkts(tags, tags')
    requires (forall x :: x in Flat(init) && x in tags ==> x in tags' && tags'[x] == tags[x])
    requires Sum(mem'.mbufs, tags', c') == Plus(Sum(mem.mbufs, tags, c), w)
    ensures Kept(mem', tags', init + [c'], Plus(sums, w)) && Incoming(mem'.mbufs, tags', rest', Flat(init + [c']))
    ensures ChainBytes(mem', Flat(init + [c'])) + ChainBytes(mem', rest')
              == ChainBytes(mem, Flat(init + [c])) + ChainBytes(mem, rest)
  {
    hide Ok, LinkedTo, Untouched, ChainBytes, Shape, Sum, Flat, Same, Row, Incoming, SameTags, SamePkts, Tagged, Turned;
    TurnFrame(mem, mem', tags, tags', init, c, rest, c', rest');
    TurnRow(mem, mem', tags, tags', init, c, rest, c', rest');
    LastRow(mem.mbufs, tags, mem'.mbufs, tags', init, c, c');
    BytesConcat(mem, Flat(init), c);
    BytesConcat(mem', Flat(init), c');
    Regroup(ChainBytes(mem, Flat(init)), ChainBytes(mem, c), ChainBytes(mem, rest), ChainBytes(mem', c'),
            ChainBytes(mem', rest'));
  }

  lemma {:induction false} TurnFrame(mem: Mem, mem': Mem, tags: Tags, tags': Tags, init: seq<seq<Id>>, c: seq<Id>,
                                     rest: seq<Id>, c': seq<Id>, rest': seq<Id>)
    requires Shape(mem.mbufs, tags, init + [c], None) && Incoming(mem.mbufs, tags, rest, Flat(init + [c])) && c != []
    requires Turned(mem, mem', c, rest, c', rest')
    requires forall x :: x in Flat(init) && x in tags ==> x in tags' && tags'[x] == tags[x]
    ensures Same(mem.mbufs, tags, mem'.mbufs, tags', Flat(init))
    ensures ChainBytes(mem', Flat(init)) == ChainBytes(mem, Flat(init))
    ensures Apart(Flat(init), c') && Apart(Flat(init), rest')
    ensures Ok(mem') && ChainBytes(mem', c') + ChainBytes(mem', rest') == ChainBytes(mem, c) + ChainBytes(mem, rest)
  {
    hide Ok, LinkedTo, ChainBytes, Shape, Flat, Untouched, Same;
    ShapeSplit(mem.mbufs, tags, init, [c], None);
    FlatOne(c);
    ShapeIn(mem.mbufs, tags, init, Some(c[0]));
    OutsideBoth(Flat(init), c, rest);
    SameFrom(mem, mem', tags, tags', Flat(init), Members(c) + Members(rest));
    BytesFrame(mem, mem', Flat(init), Members(c) + Members(rest));
  }

  lemma {:induction false} OutsideBoth(f: seq<Id>, c: seq<Id>, rest: seq<Id>)
    requires Apart(f, c) && Apart(f + c, rest)
    ensures forall x :: x in f ==> x !in Members(c) + Members(rest)
  {
    assert forall x :: x in f ==> x in f + c;
  }

  lemma {:induction false} SameFrom(mem: Mem, mem': Mem, tags: Tags, tags': Tags, f: seq<Id>, d: set<Id>)
    requires Untouched(mem, mem', d) && forall x :: x in f ==> x in mem.mbufs && x !in d
    requires forall x :: x in f && x in tags ==> x in tags' && tags'[x] == tags[x]
    ensures Same(mem.mbufs, tags, mem'.mbufs, tags', f)
  {
  }

  lemma {:induction false} TurnRow(mem: Mem, mem': Mem, tags: Tags, tags': Tags, init: seq<seq<Id>>, c: seq<Id>,
                                   rest: seq<Id>, c': seq<Id>, rest': seq<Id>)
    requires Shape(mem.mbufs, tags, init + [c], None) && Incoming(mem.mbufs, tags, rest, Flat(init + [c])) && c != []
    requires Turned(mem, mem', c, rest, c', rest') && c'[0] == c[0] && SameTags(tags, tags') && SamePkts(tags, tags')
    requires Apart(Flat(init), rest')
    ensures Row(mem'.mbufs, tags', c', None) && Tagged(tags', c')
    ensures Incoming(mem'.mbufs, tags', rest', Flat(init + [c']))
  {
    ShapeSplit(mem.mbufs, tags, init, [c], None);
    ShapeOne(mem.mbufs, tags, c, None);
    FlatConcat(init, [c']);
    FlatOne(c');
    hide Ok, LinkedTo, ChainBytes, Shape, Flat, Untouched;
    assert c[0] in c && c[0] in tags && tags[c[0]].pkt == None;
  }

  lemma {:induction false} Regroup(p: seq<byte>, a: seq<byte>, b: seq<byte>, a': seq<byte>, b': seq<byte>)
    requires a' + b' == a + b
    ensures p + a' + b' == p + a + b
  {
    assert p + (a' + b') == p + a' + b' && p + (a + b) == p + a + b;
  }

  ghost predicate SamePkts(tags: Tags, tags': Tags) {
    forall x :: x in tags && x in tags' ==> tags'[x].pkt == tags[x].pkt
  }

  /** The last mbuf takes the bytes of the first of the rest. */
  lemma {:induction false} MergeTurn(mem: Mem, tags: Tags, c: seq<Id>, rest: seq<Id>)
    requires Ok(mem) && c != [] && rest != [] && LinkedTo(mem.mbufs, c, None) && LinkedTo(mem.mbufs, rest, None)
    requires Apart(c, rest)
    requires Len(mem, rest[0]) <= Trailing(mem, c[|c| - 1]) && c[|c| - 1] in tags
    ensures AbsorbFits(mem, c[|c| - 1], rest[0]) && mem.mbufs[rest[0]].next == Head(rest[1..], None)
    ensures var mem' := Absorb(mem, c[|c| - 1], rest[0], None); var len := Len(mem, rest[0]);
            && Turned(mem, mem', c, rest, c, rest[1..])
            && Sum(mem'.mbufs, tags, c) ==
                 Plus(Sum(mem.mbufs, tags, c), Sums(len, if tags[c[|c| - 1]].kind.Other? then len else 0, 0))
  {
    hide Ok, LinkedTo, Untouched, ChainBytes, Trailing, Absorb, AbsorbFits, Sum, Live, NoneLost;
    CatStart(mem, c, rest);
    var q, all := ChainBytes(mem, c) + ChainBytes(mem, rest), Members(c) + Members(rest);
    CatAbsorb(mem, mem, c, rest, q, all);
    assert forall x :: x in rest[1..] ==> x in rest;
    AbsorbLost(mem, c[|c| - 1], rest[0], None);
    HeadLost(mem, Absorb(mem, c[|c| - 1], rest[0], None), c, c, rest);
    MergeSum(mem, tags, c, rest);
  }

  lemma {:induction false} AbsorbLost(mem: Mem, n: Id, m: Id, next: Option<Id>)
    requires AbsorbFits(mem, n, m)
    ensures forall x :: x in Absorb(mem, n, m, next).mbufs ==> x in mem.mbufs && x != m
  {
    hide Bytes;
  }

  lemma {:induction false} MergeSum(mem: Mem, tags: Tags, c: seq<Id>, rest: seq<Id>)
    requires Ok(mem) && c != [] && rest != [] && LinkedTo(mem.mbufs, c, None) && LinkedTo(mem.mbufs, rest, None)
    requires Apart(c, rest)
    requires Len(mem, rest[0]) <= Trailing(mem, c[|c| - 1]) && c[|c| - 1] in tags
    requires AbsorbFits(mem, c[|c| - 1], rest[0])
    ensures var mem' := Absorb(mem, c[|c| - 1], rest[0], None); var len := Len(mem, rest[0]);
            Sum(mem'.mbufs, tags, c) == Plus(Sum(mem.mbufs, tags, c),
                                             Sums(len, if tags[c[|c| - 1]].kind.Other? then len else 0, 0))
  {
    hide Ok, LinkedTo, Untouched, Absorb, AbsorbFits, Trailing, Sum, Bytes;
    var k := |c| - 1;
    var p, n, m := c[..k], c[k], rest[0];
    assert n in c && m in rest && c == p + [n];
    DistinctIn(mem.mbufs, c, k);
    MembersIn(mem.mbufs, c, rest);
    AbsorbOk(mem, n, m, None);
    var mbufs' := Absorb(mem, n, m, None).mbufs;
    forall x | x in p ensures x in mem.mbufs && x in mbufs' && mbufs'[x] == mem.mbufs[x] {
      var i :| 0 <= i < |p| && p[i] == x;
      assert c[i] == x && x in c;
    }
    GrowSum(mem.mbufs, mbufs', tags, p, n, Len(mem, m));
  }

  lemma {:induction false} MembersIn(mbufs: map<Id, Mbuf>, c: seq<Id>, rest: seq<Id>)
    requires LinkedTo(mbufs, c, None) && LinkedTo(mbufs, rest, None)
    ensures (forall x :: x in c ==> x in mbufs) && (forall x :: x in rest ==> x in mbufs)
  {
  }

  lemma {:induction false} GrowSum(mbufs: map<Id, Mbuf>, mbufs': map<Id, Mbuf>, tags: Tags, p: seq<Id>, n: Id, len: nat)
    requires n in mbufs && n in mbufs' && n in tags && mbufs'[n].len == mbufs[n].len + len
    requires forall x :: x in p ==> x in mbufs && x in mbufs' && mbufs'[x] == mbufs[x]
    ensures Sum(mbufs', tags, p + [n])
              == Plus(Sum(mbufs, tags, p + [n]), Sums(len, if tags[n].kind.Other? then len else 0, 0))
  {
    forall i | 0 <= i < |p| ensures Weight(mbufs', tags, p[i]) == Weight(mbufs, tags, p[i]) { assert p[i] in p; }
    SumFrame(mbufs, tags, mbufs', tags, p);
    hide Sum;
    SumConcat(mbufs, tags, p, [n]);
    SumConcat(mbufs', tags, p, [n]);
    SumOne(mbufs, tags, n);
    SumOne(mbufs', tags, n);
  }

  function Appended(mem: Mem, n: Id, m: Id): Mem
    requires n in mem.mbufs && m in mem.mbufs
  {
    SetNext(SetNext(mem, n, Some(m)), m, None)
  }

  /** The first of the rest is linked behind the last mbuf. */
  lemma {:induction false} LinkTurn(mem: Mem, tags: Tags, c: seq<Id>, rest: seq<Id>)
    requires Ok(mem) && c != [] && rest != [] && LinkedTo(mem.mbufs, c, None) && LinkedTo(mem.mbufs, rest, None)
    requires Apart(c, rest)
    ensures c[|c| - 1] in mem.mbufs && rest[0] in mem.mbufs && mem.mbufs[rest[0]].next == Head(rest[1..], None)
    ensures var mem' := Appended(mem, c[|c| - 1], rest[0]);
            && Turned(mem, mem', c, rest, c + [rest[0]], rest[1..])
            && Sum(mem'.mbufs, tags, c + [rest[0]]) == Plus(Sum(mem.mbufs, tags, c), Weight(mem.mbufs, tags, rest[0]))
  {
    hide Ok, LinkedTo, Untouched, ChainBytes, SetNext, Sum, Weight, NoneLost;
    var n, m, r := c[|c| - 1], rest[0], rest[1..];
    assert n in c && m in rest && rest == [] + ([m] + r) && rest == [m] + r;
    assert forall x :: x in r ==> x in rest;
    NextIs(mem.mbufs, [], m, r);
    SegSplit(mem.mbufs, [m], r, None);
    assert m in [m];
    SetEnd(mem, c, None, Some(m));
    var mem1 := SetNext(mem, n, Some(m));
    SegFrame(mem, mem1, [m], Head(r, None), {n});
    SegFrame(mem, mem1, r, None, {n});
    SetEnd(mem1, [m], Head(r, None), None);
    var mem2 := SetNext(mem1, m, None);
    SegFrame(mem1, mem2, c, Some(m), {m});
    SegFrame(mem1, mem2, r, None, {m});
    SegJoin(mem2.mbufs, c, [m], None);
    LinkBytes(mem, mem2, c, m, r);
    LinkUntouched(mem, mem1, mem2, c, rest);
    LinkLost(mem, mem1, mem2, c, rest);
    LinkSum(mem, tags, c, m);
  }

  lemma {:induction false} LinkLost(mem: Mem, mem1: Mem, mem2: Mem, c: seq<Id>, rest: seq<Id>)
    requires c != [] && rest != [] && c[|c| - 1] in mem.mbufs && mem1 == SetNext(mem, c[|c| - 1], Some(rest[0]))
    requires rest[0] in mem1.mbufs && mem2 == SetNext(mem1, rest[0], None)
    ensures NoneLost(mem, mem2, Members(c) + Members(rest), Members(c + [rest[0]]) + Members(rest[1..]))
  {
    hide SetNext, NoneLost;
    NextLive(mem, c[|c| - 1], Some(rest[0]));
    NextLive(mem1, rest[0], None);
    HeadLost(mem, mem2, c, c + [rest[0]], rest);
  }

  lemma {:induction false} LinkBytes(mem: Mem, mem': Mem, c: seq<Id>, m: Id, r: seq<Id>)
    requires ChainBytes(mem', c) == ChainBytes(mem, c) && ChainBytes(mem', [m]) == ChainBytes(mem, [m])
    requires ChainBytes(mem', r) == ChainBytes(mem, r)
    ensures ChainBytes(mem', c + [m]) + ChainBytes(mem', r) == ChainBytes(mem, c) + ChainBytes(mem, [m] + r)
  {
    hide ChainBytes;
    BytesConcat(mem', c, [m]);
    BytesConcat(mem, [m], r);
    assert ChainBytes(mem, c) + ChainBytes(mem, [m]) + ChainBytes(mem, r)
         == ChainBytes(mem, c) + (ChainBytes(mem, [m]) + ChainBytes(mem, r));
  }

  lemma {:induction false} LinkUntouched(mem: Mem, mem1: Mem, mem2: Mem, c: seq<Id>, rest: seq<Id>)
    requires c != [] && rest != [] && Untouched(mem, mem1, {c[|c| - 1]}) && Untouched(mem1, mem2, {rest[0]})
    ensures Untouched(mem, mem2, Members(c) + Members(rest))
  {
    hide Untouched;
    assert c[|c| - 1] in c && rest[0] in rest;
    UntouchedWiden(mem, mem1, {c[|c| - 1]}, Members(c) + Members(rest));
    UntouchedTrans(mem, mem1, mem2, Members(c) + Members(rest), {rest[0]});
  }

  lemma {:induction false} LinkSum(mem: Mem, tags: Tags, c: seq<Id>, m: Id)
    requires c != [] && c[|c| - 1] in mem.mbufs && m in mem.mbufs
    ensures Sum(Appended(mem, c[|c| - 1], m).mbufs, tags, c + [m])
              == Plus(Sum(mem.mbufs, tags, c), Weight(mem.mbufs, tags, m))
  {
    var mbufs, mbufs' := mem.mbufs, Appended(mem, c[|c| - 1], m).mbufs;
    var d := c + [m];
    forall i | 0 <= i < |d| ensures Weight(mbufs', tags, d[i]) == Weight(mbufs, tags, d[i]) {
    }
    SumFrame(mbufs, tags, mbufs', tags, d);
    hide Sum;
    SumConcat(mbufs, tags, c, [m]);
    SumOne(mbufs, tags, m);
  }

  /** The first mbuf of a buffer that was empty. */
  lemma {:induction false} FirstTurn(mem: Mem, tags: Tags, tags': Tags, rest: seq<Id>)
    requires Ok(mem) && Incoming(mem.mbufs, tags, rest, []) && rest != [] && SameTags(tags, tags')
    requires SamePkts(tags, tags')
    ensures rest[0] in mem.mbufs && mem.mbufs[rest[0]].next == Head(rest[1..], None)
    ensures var mem' := SetNext(mem, rest[0], None);
            && Kept(mem', tags', [[rest[0]]], Weight(mem.mbufs, tags, rest[0]))
            && Incoming(mem'.mbufs, tags', rest[1..], [rest[0]])
            && ChainBytes(mem', [rest[0]]) + ChainBytes(mem', rest[1..]) == ChainBytes(mem, rest)
            && Untouched(mem, mem', {rest[0]})
            && Flat([[rest[0]]]) == [rest[0]]
  {
    IncomingTail(mem, tags, rest, []);
    hide Ok, LinkedTo, Untouched, ChainBytes, SetNext;
    var m, r := rest[0], rest[1..];
    SetNextOk(mem, m, None);
    var mem' := SetNext(mem, m, None);
    Alone(mem'.mbufs, m);
    SegFrame(mem, mem', r, None, {m});
    ShapeOne(mem'.mbufs, tags', [m], None);
    SumOne(mem'.mbufs, tags', m);
    BytesOne(mem', m);
  }

  // ---- The last record grows ----

  /** The last record went on; the others are as they were. */
  ghost predicate Grown(a: seq<seq<Id>>, b: seq<seq<Id>>) {
    if a == [] then |b| <= 1 else |b| == |a| && b[..|a| - 1] == a[..|a| - 1] && a[|a| - 1] <= b[|a| - 1]
  }

  lemma {:induction false} PushedGrows(recs: seq<seq<Id>>, m: Id)
    ensures Grown(recs, Pushed(recs, m)) && Grown(recs, recs)
  {
    hide Grown;
    if recs == [] { GrownFirst(m); } else {
      var k := |recs| - 1;
      assert recs[..k] + [recs[k] + [m]] == Pushed(recs, m);
      GrownLast(recs, recs[k] + [m]);
      GrownLast(recs, recs[k]);
      assert recs[..k] + [recs[k]] == recs;
    }
  }

  lemma {:induction false} GrownFirst(m: Id)
    ensures Grown([], [[m]]) && Grown([], [])
  {
  }

  lemma {:induction false} GrownLast(recs: seq<seq<Id>>, c: seq<Id>)
    requires recs != [] && recs[|recs| - 1] <= c
    ensures Grown(recs, recs[..|recs| - 1] + [c])
  {
  }

  lemma {:induction false} GrownTrans(a: seq<seq<Id>>, b: seq<seq<Id>>, c: seq<seq<Id>>)
    requires Grown(a, b) && Grown(b, c)
    ensures Grown(a, c)
  {
    if a == [] && b != [] { assert |c| == |b|; }
  }

  lemma {:induction false} Start(mem: Mem, recs: seq<seq<Id>>, w: seq<Id>)
    ensures Conserved(mem, recs, w, mem, recs, w) && Grown(recs, recs)
  {
    PushedGrows(recs, 0);
    UntouchedSelf(mem);
    UntouchedWiden(mem, mem, {}, Members(Flat(recs)) + Members(w));
  }

  /** Setting the end-of-record mark disturbs nothing. */
  lemma {:induction false} MarkOk(mem: Mem, tags: Tags, recs: seq<seq<Id>>, sums: Sums, mb: Option<Id>,
                                  mbtail: Option<Id>, lastrecord: Option<Id>, n: Id)
    requires MidOk(mem, tags, recs, sums, mb, mbtail, lastrecord, []) && n in tags
    ensures MidOk(mem, tags[n := tags[n].(eor := true)], recs, sums, mb, mbtail, lastrecord, [])
  {
    var tags' := tags[n := tags[n].(eor := true)];
    OneTag(tags, n, tags[n].(eor := true));
    RetagOk(mem, tags, tags', recs, sums);
  }

  lemma {:induction false} RetagOk(mem: Mem, tags: Tags, tags': Tags, recs: seq<seq<Id>>, sums: Sums)
    requires Kept(mem, tags, recs, sums) && SameTags(tags, tags') && SamePkts(tags, tags') && tags'.Keys == tags.Keys
    ensures Kept(mem, tags', recs, sums)
  {
    SumEor(mem.mbufs, tags, tags', Flat(recs));
    forall r | 0 <= r < |recs| ensures Row(mem.mbufs, tags', recs[r], Lead(recs, r + 1, None)) {
      assert Row(mem.mbufs, tags, recs[r], Lead(recs, r + 1, None));
    }
  }

  lemma {:induction false} MidEnd(mem: Mem, tags: Tags, recs: seq<seq<Id>>, sums: Sums, mb: Option<Id>,
                                  mbtail: Option<Id>, lastrecord: Option<Id>)
    requires MidOk(mem, tags, recs, sums, mb, mbtail, lastrecord, [])
    ensures Kept(mem, tags, recs, sums) && mb == Lead(recs, 0, None) && Tails(recs, mbtail, lastrecord)
  {
  }

  // ---- A new record ----

  /** A new record that starts with m0 stands behind the old ones. */
  ghost predicate Began(a: seq<seq<Id>>, b: seq<seq<Id>>, m0: Id) {
    |b| == |a| + 1 && b[..|a|] == a && b[|a|] != [] && b[|a|][0] == m0
  }

  lemma {:induction false} BeganBy(a: seq<seq<Id>>, b: seq<seq<Id>>, m0: Id)
    requires Grown(a + [[m0]], b)
    ensures Began(a, b, m0)
  {
    assert (a + [[m0]])[..|a|] == a;
    assert [m0] <= b[|a|];
  }

  lemma {:induction false} StillIncoming(mbufs: map<Id, Mbuf>, tags: Tags, tags': Tags, w: seq<Id>, flat: seq<Id>,
                                         flat': seq<Id>)
    requires Incoming(mbufs, tags, w, flat') && Relinked(tags, tags', flat) && forall x :: x in flat ==> x in flat'
    ensures Incoming(mbufs, tags', w, flat')
  {
  }

  lemma {:induction false} MidRetag(mem: Mem, tags: Tags, tags': Tags, recs: seq<seq<Id>>, sums: Sums, mb: Option<Id>,
                                    mbtail: Option<Id>, lastrecord: Option<Id>, rest: seq<Id>)
    requires MidOk(mem, tags, recs, sums, mb, mbtail, lastrecord, rest)
    requires SameTags(tags, tags') && SamePkts(tags, tags') && tags'.Keys == tags.Keys
    ensures MidOk(mem, tags', recs, sums, mb, mbtail, lastrecord, rest)
  {
    RetagOk(mem, tags, tags', recs, sums);
    hide Kept;
  }

  /** The first mbuf is taken off the chain. */
  lemma {:induction false} BeginTurn(mem: Mem, tags: Tags, recs: seq<seq<Id>>, sums: Sums, w: seq<Id>)
    requires Kept(mem, tags, recs, sums) && Incoming(mem.mbufs, tags, w, Flat(recs)) && w != []
    ensures w[0] in mem.mbufs
    ensures var mem' := SetNext(mem, w[0], None);
            && Kept(mem', tags, recs, sums) && Incoming(mem'.mbufs, tags, [w[0]], Flat(recs))
            && Incoming(mem'.mbufs, tags, w[1..], Flat(recs) + [w[0]])
            && Conserved(mem, recs, w, mem', recs + [[w[0]]], w[1..])
  {
    IncomingTail(mem, tags, w, Flat(recs));
    hide Kept, Ok, LinkedTo, Untouched, ChainBytes, SetNext, Flat, Incoming;
    var m, r := w[0], w[1..];
    KeptOk(mem, tags, recs, sums);
    SetNextOk(mem, m, None);
    var mem' := SetNext(mem, m, None);
    KeptFrame(mem, mem', tags, recs, sums, {m});
    IncomingFrame(mem, mem', tags, r, Flat(recs), {m});
    AloneIncoming(mem, mem', tags, w, Flat(recs));
    NextLive(mem, m, None);
    BeginConserved(mem, mem', recs, m, r, w);
  }

  lemma {:induction false} KeptOk(mem: Mem, tags: Tags, recs: seq<seq<Id>>, sums: Sums)
    requires Kept(mem, tags, recs, sums)
    ensures Ok(mem)
  {
  }

  lemma {:induction false} AloneIncoming(mem: Mem, mem': Mem, tags: Tags, w: seq<Id>, flat: seq<Id>)
    requires Incoming(mem.mbufs, tags, w, flat) && w != [] && w[0] in mem'.mbufs && mem'.mbufs[w[0]].next == None
    requires Incoming(mem'.mbufs, tags, w[1..], flat) && w[0] !in w[1..]
    ensures Incoming(mem'.mbufs, tags, [w[0]], flat) && Incoming(mem'.mbufs, tags, w[1..], flat + [w[0]])
  {
    Alone(mem'.mbufs, w[0]);
    hide LinkedTo;
    assert w[0] in w;
  }

  lemma {:induction false} BeginConserved(mem: Mem, mem': Mem, recs: seq<seq<Id>>, m: Id, r: seq<Id>, w: seq<Id>)
    requires w != [] && w[0] == m && r == w[1..] && Untouched(mem, mem', {m}) && Bytes(mem', m) == Bytes(mem, m)
    requires ChainBytes(mem', Flat(recs)) == ChainBytes(mem, Flat(recs)) && ChainBytes(mem', r) == ChainBytes(mem, r)
    requires ChainBytes(mem, w) == Bytes(mem, m) + ChainBytes(mem, r) && Live(mem') == Live(mem)
    ensures Conserved(mem, recs, w, mem', recs + [[m]], r)
  {
    FlatConcat(recs, [[m]]);
    FlatOne([m]);
    hide ChainBytes, Flat, Untouched;
    BytesConcat(mem', Flat(recs), [m]);
    BytesOne(mem', m);
    assert m in w && forall x :: x in r ==> x in w;
    UntouchedWiden(mem, mem', {m}, Members(Flat(recs)) + Members(w));
    HeadLost(mem, mem', Flat(recs), Flat(recs + [[m]]), w);
    assert ChainBytes(mem, Flat(recs)) + Bytes(mem, m) + ChainBytes(mem, r)
         == ChainBytes(mem, Flat(recs)) + (Bytes(mem, m) + ChainBytes(mem, r));
  }

  // ---- Finding the end ----

  ghost predicate AnyEor(tags: Tags, c: seq<Id>) { exists i :: 0 <= i < |c| && c[i] in tags && tags[c[i]].eor }

  /** The last record carries an end-of-record mark. */
  ghost predicate Ended(tags: Tags, recs: seq<seq<Id>>) { recs != [] && AnyEor(tags, recs[|recs| - 1]) }

  lemma {:induction false} RecordAt(mem: Mem, tags: Tags, recs: seq<seq<Id>>, sums: Sums, r: nat)
    requires Kept(mem, tags, recs, sums) && r < |recs|
    ensures Row(mem.mbufs, tags, recs[r], Lead(recs, r + 1, None))
    ensures forall x :: x in recs[r] ==> x in tags && x in mem.mbufs
  {
    forall x | x in recs[r] ensures x in tags && x in mem.mbufs {
      FlatHas(recs, r, x);
      assert Row(mem.mbufs, tags, recs[r], Lead(recs, r + 1, None));
    }
  }

  lemma {:induction false} SumStep(mbufs: map<Id, Mbuf>, tags: Tags, w: seq<Id>, k: nat)
    requires k < |w|
    ensures Sum(mbufs, tags, w[..k + 1]) == Plus(Sum(mbufs, tags, w[..k]), Weight(mbufs, tags, w[k]))
  {
    hide Sum, Weight;
    assert w[..k + 1] == w[..k] + [w[k]];
    SumConcat(mbufs, tags, w[..k], [w[k]]);
    SumOne(mbufs, tags, w[k]);
  }

  lemma {:induction false} IncomingLinked(mbufs: map<Id, Mbuf>, tags: Tags, a: seq<Id>, flat: seq<Id>)
    requires Incoming(mbufs, tags, a, flat)
    ensures LinkedTo(mbufs, a, None)
  {
  }

  lemma {:induction false} JoinTurn(mem: Mem, tags: Tags, recs: seq<seq<Id>>, sums: Sums, a: seq<Id>, b: seq<Id>)
    requires Kept(mem, tags, recs, sums) && a != [] && Apart(a, b)
    requires Incoming(mem.mbufs, tags, a, Flat(recs)) && Incoming(mem.mbufs, tags, b, Flat(recs))
    ensures a[|a| - 1] in mem.mbufs
    ensures var mem' := SetNext(mem, a[|a| - 1], Head(b, None));
            && Kept(mem', tags, recs, sums) && Incoming(mem'.mbufs, tags, a + b, Flat(recs))
            && Untouched(mem, mem', Members(a))
            && ChainBytes(mem', Flat(recs)) == ChainBytes(mem, Flat(recs))
            && ChainBytes(mem', a + b) == ChainBytes(mem, a) + ChainBytes(mem, b)
  {
    hide Kept, Ok, LinkedTo, Untouched, ChainBytes, SetNext, Flat;
    var l := a[|a| - 1];
    assert l in a;
    KeptOk(mem, tags, recs, sums);
    SetEnd(mem, a, None, Head(b, None));
    var mem' := SetNext(mem, l, Head(b, None));
    SegFrame(mem, mem', b, None, {l});
    SegJoin(mem'.mbufs, a, b, None);
    BytesConcat(mem', a, b);
    KeptFrame(mem, mem', tags, recs, sums, {l});
    UntouchedWiden(mem, mem', {l}, Members(a));
  }

  lemma {:induction false} WholeBytes(mem: Mem, recs: seq<seq<Id>>, w: seq<Id>)
    ensures ChainBytes(mem, Flat(recs + [w])) == ChainBytes(mem, Flat(recs)) + ChainBytes(mem, w)
  {
    FlatConcat(recs, [w]);
    FlatOne(w);
    BytesConcat(mem, Flat(recs), w);
  }
}

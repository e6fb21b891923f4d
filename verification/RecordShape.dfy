/** Records of a socket buffer: mbuf chains linked through m_nextpkt, with sums over all of them. */
module RecordShape {
  import opened Basics
  import opened MbufMem
  import opened MbufChains
  import opened MbufEdits

  /** m_type, as far as the accounts care. */
  datatype Kind = Data | Oob | Other(mtype: nat)

  /** What an mbuf carries besides its data: m_nextpkt, M_EOR, M_NOTREADY, its type, and the size
      of its cluster. */
  datatype Tag = Tag(pkt: Option<Id>, eor: bool, notReady: bool, kind: Kind, ext: nat)

  type Tags = map<Id, Tag>

  // ---- Sums ----

  datatype Sums = Sums(len: int, ctl: int, cnt: int)

  function Plus(a: Sums, b: Sums): Sums { Sums(a.len + b.len, a.ctl + b.ctl, a.cnt + b.cnt) }

  function Minus(a: Sums, b: Sums): Sums { Sums(a.len - b.len, a.ctl - b.ctl, a.cnt - b.cnt) }

  function WeightOf(len: nat, t: Tag): Sums { Sums(len, if t.kind.Other? then len else 0, MSIZE + t.ext) }

  function Weight(mbufs: map<Id, Mbuf>, tags: Tags, i: Id): Sums {
    if i in mbufs && i in tags then WeightOf(mbufs[i].len, tags[i]) else Sums(0, 0, 0)
  }

  function Sum(mbufs: map<Id, Mbuf>, tags: Tags, c: seq<Id>): Sums {
    if c == [] then Sums(0, 0, 0) else Plus(Weight(mbufs, tags, c[0]), Sum(mbufs, tags, c[1..]))
  }

  lemma {:induction false} SumConcat(mbufs: map<Id, Mbuf>, tags: Tags, a: seq<Id>, b: seq<Id>)
    ensures Sum(mbufs, tags, a + b) == Plus(Sum(mbufs, tags, a), Sum(mbufs, tags, b))
  {
    hide Weight;
    if a == [] { assert a + b == b; } else {
      var u := a + b;
      assert u[1..] == a[1..] + b && u[0] == a[0];
      SumConcat(mbufs, tags, a[1..], b);
      assert Sum(mbufs, tags, u) == Plus(Weight(mbufs, tags, u[0]), Sum(mbufs, tags, u[1..]));
    }
  }

  lemma {:induction false} SumOne(mbufs: map<Id, Mbuf>, tags: Tags, i: Id)
    ensures Sum(mbufs, tags, [i]) == Weight(mbufs, tags, i)
  {
    assert [i][1..] == [];
  }

  lemma {:induction false} SumFrame(mbufs: map<Id, Mbuf>, tags: Tags, mbufs': map<Id, Mbuf>, tags': Tags, c: seq<Id>)
    requires forall i :: 0 <= i < |c| ==> Weight(mbufs', tags', c[i]) == Weight(mbufs, tags, c[i])
    ensures Sum(mbufs', tags', c) == Sum(mbufs, tags, c)
  {
    if c != [] { SumFrame(mbufs, tags, mbufs', tags', c[1..]); }
  }

  /** Everything in the buffer counts. */
  lemma {:induction false} SumIsPositive(mbufs: map<Id, Mbuf>, tags: Tags, c: seq<Id>)
    requires forall x :: x in c ==> x in mbufs && x in tags
    ensures Sum(mbufs, tags, c).cnt >= |c| && Sum(mbufs, tags, c).len >= 0
    ensures Sum(mbufs, tags, c).len == 0 ==> forall i :: 0 <= i < |c| ==> mbufs[c[i]].len == 0
  {
    if c != [] {
      assert c[0] in c && forall x :: x in c[1..] ==> x in c;
      SumIsPositive(mbufs, tags, c[1..]);
      if Sum(mbufs, tags, c).len == 0 {
        forall i | 0 <= i < |c| ensures mbufs[c[i]].len == 0 { assert i > 0 ==> c[i] == c[1..][i - 1]; }
      }
    }
  }

  /** sb_ccc counts the bytes. */
  lemma {:induction false} SumIsLength(mem: Mem, tags: Tags, c: seq<Id>)
    requires Ok(mem) && forall i :: 0 <= i < |c| ==> c[i] in mem.mbufs && c[i] in tags
    ensures Sum(mem.mbufs, tags, c).len == |ChainBytes(mem, c)|
  {
    if c != [] {
      ChainLength(mem, [], c[0]);
      hide Ok, Bytes;
      SumIsLength(mem, tags, c[1..]);
    }
  }

  // ---- Records ----

  ghost function Flat(recs: seq<seq<Id>>): seq<Id> { if recs == [] then [] else recs[0] + Flat(recs[1..]) }

  lemma {:induction false} FlatConcat(a: seq<seq<Id>>, b: seq<seq<Id>>)
    ensures Flat(a + b) == Flat(a) + Flat(b)
  {
    if a == [] { assert a + b == b; } else {
      assert (a + b)[1..] == a[1..] + b && (a + b)[0] == a[0];
      FlatConcat(a[1..], b);
      assert a[0] + (Flat(a[1..]) + Flat(b)) == a[0] + Flat(a[1..]) + Flat(b);
    }
  }

  lemma {:induction false} FlatOne(c: seq<Id>)
    ensures Flat([c]) == c
  {
    assert [c][1..] == [];
    assert c + [] == c;
  }

  lemma {:induction false} FlatHas(recs: seq<seq<Id>>, r: nat, x: Id)
    requires r < |recs| && x in recs[r]
    ensures x in Flat(recs)
  {
    if r > 0 { FlatHas(recs[1..], r - 1, x); }
  }

  /** The first mbuf of record r; behind the last, where end says. */
  ghost function Lead(recs: seq<seq<Id>>, r: nat, end: Option<Id>): Option<Id> {
    if r >= |recs| then end else if recs[r] == [] then None else Some(recs[r][0])
  }

  ghost predicate Tagged(tags: Tags, c: seq<Id>) { forall x :: x in c ==> x in tags }

  /** A record is a chain whose first mbuf leads to pkt. */
  ghost predicate Row(mbufs: map<Id, Mbuf>, tags: Tags, c: seq<Id>, pkt: Option<Id>) {
    c != [] && LinkedTo(mbufs, c, None) && c[0] in tags && tags[c[0]].pkt == pkt
  }

  ghost predicate Rows(mbufs: map<Id, Mbuf>, tags: Tags, recs: seq<seq<Id>>, end: Option<Id>) {
    forall r :: 0 <= r < |recs| ==> Row(mbufs, tags, recs[r], Lead(recs, r + 1, end))
  }

  /** Records that follow each other through m_nextpkt, up to end, and share no mbuf. */
  ghost predicate Shape(mbufs: map<Id, Mbuf>, tags: Tags, recs: seq<seq<Id>>, end: Option<Id>) {
    Distinct(Flat(recs)) && Tagged(tags, Flat(recs)) && Rows(mbufs, tags, recs, end)
  }

  lemma {:induction false} ShapeIn(mbufs: map<Id, Mbuf>, tags: Tags, recs: seq<seq<Id>>, end: Option<Id>)
    requires Shape(mbufs, tags, recs, end)
    ensures forall x :: x in Flat(recs) ==> x in mbufs && x in tags
  {
    forall x | x in Flat(recs) ensures x in mbufs { FlatFrom(mbufs, tags, recs, x); }
  }

  lemma {:induction false} FlatFrom(mbufs: map<Id, Mbuf>, tags: Tags, recs: seq<seq<Id>>, x: Id)
    requires x in Flat(recs) && forall r :: 0 <= r < |recs| ==> LinkedTo(mbufs, recs[r], None)
    ensures x in mbufs
  {
    if x in recs[0] {
      var i :| 0 <= i < |recs[0]| && recs[0][i] == x;
    } else {
      FlatFrom(mbufs, tags, recs[1..], x);
    }
  }

  /** Nothing about the mbufs of c that the shape depends on has changed. */
  ghost predicate Same(mbufs: map<Id, Mbuf>, tags: Tags, mbufs': map<Id, Mbuf>, tags': Tags, c: seq<Id>) {
    forall x :: x in c ==>
      && (x in mbufs ==> x in mbufs' && mbufs'[x] == mbufs[x])
      && (x in tags ==> x in tags' && tags'[x] == tags[x])
  }

  lemma {:induction false} RowFrame(mbufs: map<Id, Mbuf>, tags: Tags, mbufs': map<Id, Mbuf>, tags': Tags, c: seq<Id>,
                                    pkt: Option<Id>)
    requires Row(mbufs, tags, c, pkt) && Same(mbufs, tags, mbufs', tags', c)
    ensures Row(mbufs', tags', c, pkt)
  {
    assert forall i :: 0 <= i < |c| ==> c[i] in c;
  }

  lemma {:induction false} ShapeFrame(mbufs: map<Id, Mbuf>, tags: Tags, mbufs': map<Id, Mbuf>, tags': Tags,
                                      recs: seq<seq<Id>>, end: Option<Id>)
    requires Shape(mbufs, tags, recs, end) && Same(mbufs, tags, mbufs', tags', Flat(recs))
    ensures Shape(mbufs', tags', recs, end) && Sum(mbufs', tags', Flat(recs)) == Sum(mbufs, tags, Flat(recs))
  {
    forall r | 0 <= r < |recs| ensures Row(mbufs', tags', recs[r], Lead(recs, r + 1, end)) {
      forall x | x in recs[r] ensures x in Flat(recs) { FlatHas(recs, r, x); }
      assert Same(mbufs, tags, mbufs', tags', recs[r]);
      hide Row, Same;
      RowFrame(mbufs, tags, mbufs', tags', recs[r], Lead(recs, r + 1, end));
    }
    var f := Flat(recs);
    ShapeIn(mbufs, tags, recs, end);
    forall i | 0 <= i < |f| ensures Weight(mbufs', tags', f[i]) == Weight(mbufs, tags, f[i]) { assert f[i] in f; }
    SumFrame(mbufs, tags, mbufs', tags', f);
  }

  lemma {:induction false} ShapeSplit(mbufs: map<Id, Mbuf>, tags: Tags, a: seq<seq<Id>>, b: seq<seq<Id>>,
                                      end: Option<Id>)
    ensures Shape(mbufs, tags, a + b, end) <==>
              Shape(mbufs, tags, a, Lead(b, 0, end)) && Shape(mbufs, tags, b, end) && Apart(Flat(a), Flat(b))
    ensures Flat(a + b) == Flat(a) + Flat(b)
  {
    FlatConcat(a, b);
    FrontDistinct(Flat(a), Flat(b));
    RowsSplit(mbufs, tags, a, b, end);
    hide Distinct, Rows, Flat;
    assert forall x :: x in Flat(a) + Flat(b) <==> x in Flat(a) || x in Flat(b);
  }

  lemma {:induction false} RowsSplit(mbufs: map<Id, Mbuf>, tags: Tags, a: seq<seq<Id>>, b: seq<seq<Id>>,
                                     end: Option<Id>)
    ensures Rows(mbufs, tags, a + b, end) <==> Rows(mbufs, tags, a, Lead(b, 0, end)) && Rows(mbufs, tags, b, end)
  {
    hide Row;
    var recs := a + b;
    assert forall r :: 0 <= r < |a| ==> recs[r] == a[r];
    assert forall r :: 0 <= r < |b| ==> recs[|a| + r] == b[r];
    if Rows(mbufs, tags, recs, end) {
      forall r | 0 <= r < |a| ensures Row(mbufs, tags, a[r], Lead(a, r + 1, Lead(b, 0, end))) {
        assert Row(mbufs, tags, recs[r], Lead(recs, r + 1, end));
      }
      forall r | 0 <= r < |b| ensures Row(mbufs, tags, b[r], Lead(b, r + 1, end)) {
        assert Row(mbufs, tags, recs[|a| + r], Lead(recs, |a| + r + 1, end));
      }
    }
    if Rows(mbufs, tags, a, Lead(b, 0, end)) && Rows(mbufs, tags, b, end) {
      forall r | 0 <= r < |recs| ensures Row(mbufs, tags, recs[r], Lead(recs, r + 1, end)) {
        if r < |a| {
          assert Row(mbufs, tags, a[r], Lead(a, r + 1, Lead(b, 0, end)));
        } else {
          assert Row(mbufs, tags, b[r - |a|], Lead(b, r - |a| + 1, end));
        }
      }
    }
  }

  lemma {:induction false} ShapeOne(mbufs: map<Id, Mbuf>, tags: Tags, c: seq<Id>, end: Option<Id>)
    ensures Shape(mbufs, tags, [c], end) <==> Row(mbufs, tags, c, end) && Tagged(tags, c) && Distinct(c)
    ensures Flat([c]) == c
  {
    FlatOne(c);
    assert Lead([c], 1, end) == end;
  }

  lemma {:induction false} ShapeNone(mbufs: map<Id, Mbuf>, tags: Tags, end: Option<Id>)
    ensures Shape(mbufs, tags, [], end) && Flat([]) == []
  {
  }

  lemma {:induction false} FrontDistinct(a: seq<Id>, b: seq<Id>)
    ensures Distinct(a + b) <==> Distinct(a) && Distinct(b) && Apart(a, b)
  {
    var c := a + b;
    if Distinct(c) {
      assert forall i :: 0 <= i < |b| ==> b[i] == c[|a| + i];
      assert forall i :: 0 <= i < |a| ==> a[i] == c[i];
      forall i, j | 0 <= i < j < |b| ensures b[i] != b[j] { assert c[|a| + i] != c[|a| + j]; }
      forall x | x in a ensures x !in b {
        var i :| 0 <= i < |a| && a[i] == x;
        forall j | 0 <= j < |b| ensures b[j] != x { assert c[i] != c[|a| + j]; }
      }
    }
    if Distinct(a) && Distinct(b) && Apart(a, b) {
      forall i, j | 0 <= i < j < |c| ensures c[i] != c[j] {
        if i < |a| <= j { assert c[i] in a && c[j] in b; }
      }
    }
  }

  // ---- The last record ----

  /** Only the last record changed: c became c'. */
  lemma {:induction false} LastRow(mbufs: map<Id, Mbuf>, tags: Tags, mbufs': map<Id, Mbuf>, tags': Tags,
                                   init: seq<seq<Id>>, c: seq<Id>, c': seq<Id>)
    requires Shape(mbufs, tags, init + [c], None) && Same(mbufs, tags, mbufs', tags', Flat(init))
    requires Row(mbufs', tags', c', None) && c != [] && c'[0] == c[0] && Tagged(tags', c') && Apart(Flat(init), c')
    ensures Shape(mbufs', tags', init + [c'], None) && Flat(init + [c']) == Flat(init) + c'
    ensures Flat(init + [c]) == Flat(init) + c
    ensures Sum(mbufs', tags', Flat(init + [c'])) == Plus(Sum(mbufs, tags, Flat(init)), Sum(mbufs', tags', c'))
    ensures Sum(mbufs, tags, Flat(init + [c])) == Plus(Sum(mbufs, tags, Flat(init)), Sum(mbufs, tags, c))
  {
    ShapeSplit(mbufs, tags, init, [c], None);
    ShapeOne(mbufs, tags, c, None);
    ShapeFrame(mbufs, tags, mbufs', tags', init, Some(c[0]));
    ShapeOne(mbufs', tags', c', None);
    ShapeSplit(mbufs', tags', init, [c'], None);
    hide Shape, Flat, Sum;
    SumConcat(mbufs', tags', Flat(init), c');
    SumConcat(mbufs, tags, Flat(init), c);
  }

  /** m_nextpkt of the last record's first mbuf is set. */
  function Linking(tags: Tags, last: Id, m0: Id): Tags
    requires last in tags
  {
    tags[last := tags[last].(pkt := Some(m0))]
  }

  lemma {:induction false} LinkShape(mbufs: map<Id, Mbuf>, tags: Tags, init: seq<seq<Id>>, c: seq<Id>, r: seq<Id>)
    requires Shape(mbufs, tags, init + [c], None) && Row(mbufs, tags, r, None) && Tagged(tags, r)
    requires Apart(Flat(init + [c]), r)
    ensures c != [] && c[0] in tags
    ensures var tags' := Linking(tags, c[0], r[0]);
            && Shape(mbufs, tags', init + [c] + [r], None) && Flat(init + [c] + [r]) == Flat(init + [c]) + r
            && Sum(mbufs, tags', Flat(init + [c])) == Sum(mbufs, tags, Flat(init + [c]))
            && Sum(mbufs, tags', r) == Sum(mbufs, tags, r)
  {
    ShapeSplit(mbufs, tags, init, [c], None);
    ShapeOne(mbufs, tags, c, None);
    var tags' := Linking(tags, c[0], r[0]);
    assert c[0] in c && c[0] !in Flat(init) && c[0] !in r;
    assert Same(mbufs, tags, mbufs, tags', Flat(init)) && Same(mbufs, tags, mbufs, tags', r);
    ShapeFrame(mbufs, tags, mbufs, tags', init, Some(c[0]));
    ShapeOne(mbufs, tags', c, Some(r[0]));
    ShapeOne(mbufs, tags', r, None);
    RowFrame(mbufs, tags, mbufs, tags', r, None);
    ShapeSplit(mbufs, tags', init, [c], Some(r[0]));
    ShapeSplit(mbufs, tags', init + [c], [r], None);
    SumTags(mbufs, tags, tags', Flat(init + [c]));
    SumTags(mbufs, tags, tags', r);
  }

  /** The sums do not depend on m_nextpkt or flags. */
  lemma {:induction false} SumTags(mbufs: map<Id, Mbuf>, tags: Tags, tags': Tags, c: seq<Id>)
    requires forall x :: x in c ==> (x in tags <==> x in tags')
    requires forall x :: x in c && x in tags && x in tags' ==>
               tags'[x].kind == tags[x].kind && tags'[x].ext == tags[x].ext
    ensures Sum(mbufs, tags', c) == Sum(mbufs, tags, c)
  {
    forall i | 0 <= i < |c| ensures Weight(mbufs, tags', c[i]) == Weight(mbufs, tags, c[i]) { assert c[i] in c; }
    SumFrame(mbufs, tags, mbufs, tags', c);
  }
}

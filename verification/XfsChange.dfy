/** How the tree changes when a directory gains an entry or a file its bytes:
    each step keeps the layout invariant, and changes the path map at one path. */
module XfsChange {
  import opened XfsCodec
  import opened XfsTree

  // ---- Framing: a node depends on its own blocks only ----

  ghost predicate SameAt(disk: Disk, disk': Disk, bs: seq<nat>) {
    forall k :: 0 <= k < |bs| ==> Sector(disk', bs[k]) == Sector(disk, bs[k])
  }

  lemma NodeFrame(disk: Disk, disk': Disk, i: nat, nd: Node)
    requires NodeOk(disk, i, nd)
    requires Sector(disk', i) == Sector(disk, i) && SameAt(disk, disk', nd.blocks)
    ensures NodeOk(disk', i, nd)
  {
    match nd
    case DirNode(bs, ents, lost) =>
      DirFrame(disk, disk', bs, ents, lost);
    case FileNode(bs, data) =>
      assert StoredBytes(disk', bs, |data|) == StoredBytes(disk, bs, |data|);
  }

  lemma DirFrame(disk: Disk, disk': Disk, bs: seq<nat>, ents: map<Name, Slot>, lost: set<nat>)
    requires DirOk(disk, bs, ents, lost) && SameAt(disk, disk', bs)
    ensures DirOk(disk', bs, ents, lost)
  {
    hide SlotOk, Packed, LostOk;
    forall c | c in lost ensures LostOk(disk', bs, ents, c) { LostFrame(disk, disk', bs, ents, c); }
    forall n | n in ents ensures EntOk(disk', bs, n, ents[n]) {
      assert EntOk(disk, bs, n, ents[n]);
    }
    PackedFrame(disk, disk', bs);
  }

  lemma LostFrame(disk: Disk, disk': Disk, bs: seq<nat>, ents: map<Name, Slot>, c: nat)
    requires LostOk(disk, bs, ents, c) && SameAt(disk, disk', bs)
    ensures LostOk(disk', bs, ents, c)
  {
    var k, d :| 0 <= k < |bs| && 0 <= d < DENTS_PER_BLOCK && ShadowAt(disk, bs, ents, k, d, c);
    assert ShadowAt(disk', bs, ents, k, d, c);
  }

  lemma PackedFrame(disk: Disk, disk': Disk, bs: seq<nat>)
    requires Packed(disk, bs) && SameAt(disk, disk', bs)
    ensures Packed(disk', bs)
  {
    assert forall k, d :: 0 <= k < |bs| && 0 <= d < DENTS_PER_BLOCK ==> Live(disk', bs, k, d) == Live(disk, bs, k, d);
  }

  /** Blocks outside the tree may change, and more of them may be in use. */
  lemma TreeFrame(disk: Disk, disk': Disk, lay: Layout, root: nat, lo: nat, hi: nat, hi': nat)
    requires Represents(disk, lay, root, lo, hi)
    requires hi <= hi' <= |disk'|
    requires forall b :: b in lay.own ==> Sector(disk', b) == Sector(disk, b)
    ensures Represents(disk', lay, root, lo, hi')
  {
    forall i | i in lay.nodes ensures NodeOk(disk', i, lay.nodes[i]) {
      hide NodeOk, Linked;
      NodeFrame(disk, disk', i, lay.nodes[i]);
    }
  }

  // ---- A directory gains an entry ----

  /** The entries after n was entered in slot s: what was there already is still found first. */
  ghost function Entered(ents: map<Name, Slot>, n: Name, s: Slot): map<Name, Slot> {
    if n in ents then ents else ents[n := s]
  }

  /** And the lost inodes. */
  ghost function Strayed(ents: map<Name, Slot>, lost: set<nat>, n: Name, c: nat): set<nat> {
    if n in ents then lost + {c} else lost
  }

  /** Every slot in front of (k, d) is taken. */
  ghost predicate FullBefore(disk: Disk, bs: seq<nat>, k: nat, d: nat) {
    forall j, e :: 0 <= j < |bs| && 0 <= e < DENTS_PER_BLOCK && Earlier(j, e, k, d) ==> Live(disk, bs, j, e)
  }

  lemma DirAddSlot(disk: Disk, disk': Disk, bs: seq<nat>, ents: map<Name, Slot>, lost: set<nat>,
                   k: nat, d: nat, n: Name, c: nat, flags: nat)
    requires DirOk(disk, bs, ents, lost)
    requires k < |bs| && d < DENTS_PER_BLOCK && bs[k] < |disk|
    requires forall j :: 0 <= j < |bs| && j != k ==> bs[j] != bs[k]
    requires DentIno(disk[bs[k]], d) == 0 && FullBefore(disk, bs, k, d)
    requires GoodName(n) && 0 < c < 0x1_0000_0000
    requires Sector(disk', bs[k]) == PutDent(disk[bs[k]], d, n, c, flags)
    requires forall j :: 0 <= j < |bs| && j != k ==> Sector(disk', bs[j]) == Sector(disk, bs[j])
    ensures DirOk(disk', bs, Entered(ents, n, Slot(c, k, d)), Strayed(ents, lost, n, c))
  {
    hide PutDent, DentName, DentIno, DentTail, Packed, FullBefore, LostOk;
    var ents', lost' := Entered(ents, n, Slot(c, k, d)), Strayed(ents, lost, n, c);
    assert SlotOk(Sector(disk, bs[k]), k, d, ents, lost);
    PutDentRoundTrip(disk[bs[k]], d, n, c, flags);
    if n in ents { TakenEarlier(disk, bs, ents, lost, k, d, n); }
    forall j, e | 0 <= j < |bs| && 0 <= e < DENTS_PER_BLOCK
      ensures SlotOk(Sector(disk', bs[j]), j, e, ents', lost')
    {
      assert SlotOk(Sector(disk, bs[j]), j, e, ents, lost);
      if j == k && e != d { assert SameDent(Sector(disk, bs[k]), Sector(disk', bs[k]), e); }
    }
    forall m | m in ents' ensures EntOk(disk', bs, m, ents'[m]) {
      if m in ents {
        assert EntOk(disk, bs, m, ents[m]);
        var s := ents[m];
        if s.k == k && s.d != d { assert SameDent(Sector(disk, bs[k]), Sector(disk', bs[k]), s.d); }
      }
    }
    PackedSlot(disk, disk', bs, k, d, n, c, flags);
    forall x | x in lost' ensures LostOk(disk', bs, ents', x) {
      if x in lost {
        LostSlot(disk, disk', bs, ents, k, d, n, c, flags, x);
      } else {
        StraySlot(disk', bs, ents, k, d, n, c);
      }
    }
  }

  lemma StraySlot(disk: Disk, bs: seq<nat>, ents: map<Name, Slot>, k: nat, d: nat, n: Name, c: nat)
    requires k < |bs| && d < DENTS_PER_BLOCK && c != 0 && n in ents && Earlier(ents[n].k, ents[n].d, k, d)
    requires DentIno(Sector(disk, bs[k]), d) == c && DentName(Sector(disk, bs[k]), d) == n
    ensures LostOk(disk, bs, ents, c)
  {
    hide DentIno, DentName;
    assert ShadowAt(disk, bs, ents, k, d, c);
  }

  lemma LostSlot(disk: Disk, disk': Disk, bs: seq<nat>, ents: map<Name, Slot>,
                 k: nat, d: nat, n: Name, c: nat, flags: nat, x: nat)
    requires LostOk(disk, bs, ents, x) && k < |bs| && d < DENTS_PER_BLOCK
    requires |n| <= NAME_MAX - 1 && 0 !in n && 0 < c < 0x1_0000_0000 && DentTail(Sector(disk, bs[k]), d) == 0
    requires DentIno(Sector(disk, bs[k]), d) == 0
    requires Sector(disk', bs[k]) == PutDent(Sector(disk, bs[k]), d, n, c, flags)
    requires forall j :: 0 <= j < |bs| && j != k ==> Sector(disk', bs[j]) == Sector(disk, bs[j])
    ensures LostOk(disk', bs, Entered(ents, n, Slot(c, k, d)), x)
  {
    hide PutDent, DentName, DentIno, DentTail;
    PutDentRoundTrip(Sector(disk, bs[k]), d, n, c, flags);
    var j, e :| 0 <= j < |bs| && 0 <= e < DENTS_PER_BLOCK && ShadowAt(disk, bs, ents, j, e, x);
    if j == k { assert SameDent(Sector(disk, bs[k]), Sector(disk', bs[k]), e); }
    assert ShadowAt(disk', bs, Entered(ents, n, Slot(c, k, d)), j, e, x);
  }

  /** What is live comes before a free slot. */
  lemma TakenEarlier(disk: Disk, bs: seq<nat>, ents: map<Name, Slot>, lost: set<nat>, k: nat, d: nat, n: Name)
    requires DirOk(disk, bs, ents, lost) && n in ents && k < |bs| && d < DENTS_PER_BLOCK && bs[k] < |disk|
    requires DentIno(disk[bs[k]], d) == 0
    ensures Earlier(ents[n].k, ents[n].d, k, d)
  {
    hide SlotOk, LostOk, DentIno, DentName;
    assert EntOk(disk, bs, n, ents[n]);
    assert !Live(disk, bs, k, d) && Live(disk, bs, ents[n].k, ents[n].d);
  }

  lemma PackedSlot(disk: Disk, disk': Disk, bs: seq<nat>, k: nat, d: nat, n: Name, c: nat, flags: nat)
    requires Packed(disk, bs) && FullBefore(disk, bs, k, d) && k < |bs| && d < DENTS_PER_BLOCK
    requires |n| <= NAME_MAX - 1 && 0 !in n && 0 < c < 0x1_0000_0000 && DentTail(Sector(disk, bs[k]), d) == 0
    requires forall j :: 0 <= j < |bs| && j != k ==> bs[j] != bs[k]
    requires Sector(disk', bs[k]) == PutDent(Sector(disk, bs[k]), d, n, c, flags)
    requires forall j :: 0 <= j < |bs| && j != k ==> Sector(disk', bs[j]) == Sector(disk, bs[j])
    ensures Packed(disk', bs)
  {
    hide PutDent, DentName, DentIno, DentTail;
    PutDentRoundTrip(Sector(disk, bs[k]), d, n, c, flags);
    forall j, e | 0 <= j < |bs| && 0 <= e < DENTS_PER_BLOCK
      ensures Live(disk', bs, j, e) == (Live(disk, bs, j, e) || (j == k && e == d))
    {
      if j == k && e != d { assert SameDent(Sector(disk, bs[k]), Sector(disk', bs[k]), e); }
    }
  }

  lemma DirAddBlock(disk: Disk, disk': Disk, bs: seq<nat>, nb: nat, ents: map<Name, Slot>, lost: set<nat>,
                    n: Name, c: nat, flags: nat)
    requires DirOk(disk, bs, ents, lost) && FullBefore(disk, bs, |bs|, 0)
    requires GoodName(n) && 0 < c < 0x1_0000_0000
    requires Sector(disk', nb) == PutDent(ZERO_BLOCK, 0, n, c, flags)
    requires SameAt(disk, disk', bs)
    ensures DirOk(disk', bs + [nb], Entered(ents, n, Slot(c, |bs|, 0)), Strayed(ents, lost, n, c))
  {
    hide PutDent, DentName, DentIno, DentTail, Packed, FullBefore, LostOk;
    var ents', lost' := Entered(ents, n, Slot(c, |bs|, 0)), Strayed(ents, lost, n, c);
    var bs' := bs + [nb];
    ZeroBlockEmpty();
    PutDentRoundTrip(ZERO_BLOCK, 0, n, c, flags);
    assert n in ents ==> EntOk(disk, bs, n, ents[n]);
    forall j, e | 0 <= j < |bs'| && 0 <= e < DENTS_PER_BLOCK
      ensures SlotOk(Sector(disk', bs'[j]), j, e, ents', lost')
    {
      if j < |bs| {
        assert SlotOk(Sector(disk, bs[j]), j, e, ents, lost);
      } else if e != 0 {
        assert SameDent(ZERO_BLOCK, Sector(disk', nb), e);
      }
    }
    forall m | m in ents' ensures EntOk(disk', bs', m, ents'[m]) {
      if m in ents {
        assert EntOk(disk, bs, m, ents[m]);
      }
    }
    PackedBlock(disk, disk', bs, nb, n, c, flags);
    forall x | x in lost' ensures LostOk(disk', bs', ents', x) {
      if x in lost {
        LostLonger(disk, disk', bs, nb, ents, n, Slot(c, |bs|, 0), x);
      } else {
        StraySlot(disk', bs', ents, |bs|, 0, n, c);
      }
    }
  }

  lemma LostLonger(disk: Disk, disk': Disk, bs: seq<nat>, nb: nat, ents: map<Name, Slot>, n: Name, s: Slot, x: nat)
    requires LostOk(disk, bs, ents, x) && SameAt(disk, disk', bs)
    ensures LostOk(disk', bs + [nb], Entered(ents, n, s), x)
  {
    hide DentName, DentIno;
    var j, e :| 0 <= j < |bs| && 0 <= e < DENTS_PER_BLOCK && ShadowAt(disk, bs, ents, j, e, x);
    assert ShadowAt(disk', bs + [nb], Entered(ents, n, s), j, e, x);
  }

  lemma PackedBlock(disk: Disk, disk': Disk, bs: seq<nat>, nb: nat, n: Name, c: nat, flags: nat)
    requires FullBefore(disk, bs, |bs|, 0) && SameAt(disk, disk', bs)
    requires |n| <= NAME_MAX - 1 && 0 !in n && 0 < c < 0x1_0000_0000
    requires Sector(disk', nb) == PutDent(ZERO_BLOCK, 0, n, c, flags)
    ensures Packed(disk', bs + [nb])
  {
    hide PutDent, DentName, DentIno, DentTail;
    ZeroBlockEmpty();
    PutDentRoundTrip(ZERO_BLOCK, 0, n, c, flags);
    var bs' := bs + [nb];
    forall j, e | 0 <= j < |bs'| && 0 <= e < DENTS_PER_BLOCK
      ensures Live(disk', bs', j, e) == (j < |bs| || e == 0)
    {
      if j < |bs| {
        assert Live(disk, bs, j, e);
      } else if e != 0 {
        assert SameDent(ZERO_BLOCK, Sector(disk', nb), e);
      }
    }
  }

  lemma {:induction false} ZerosAreZero(s: Bytes)
    requires forall j :: 0 <= j < |s| ==> s[j] == 0
    ensures FromLe(s) == 0
  {
    if s != [] { ZerosAreZero(s[1..]); }
  }

  lemma ZeroBlockEmpty()
    ensures forall d :: 0 <= d < DENTS_PER_BLOCK ==>
              DentIno(ZERO_BLOCK, d) == 0 && DentTail(ZERO_BLOCK, d) == 0
  {
    forall d | 0 <= d < DENTS_PER_BLOCK
      ensures DentIno(ZERO_BLOCK, d) == 0 && DentTail(ZERO_BLOCK, d) == 0
    {
      var o := DentBase(d);
      ZerosAreZero(ZERO_BLOCK[o + 64..o + 68]);
    }
  }

  lemma EmptyDirOk(disk: Disk, x: nat)
    requires Sector(disk, x) == ZERO_BLOCK
    ensures DirOk(disk, [x], map[], {})
  {
    ZeroBlockEmpty();
  }

  ghost predicate Leaf(nd: Node, x: nat) {
    && nd.blocks == [x]
    && (nd.DirNode? ==> nd.ents == map[] && nd.lost == {})
    && (nd.FileNode? ==> nd.data == [])
  }

  /** The tree with child c, holding data block x, linked under directory p as n,
      where `more` are the blocks p gained for the entry. */
  ghost function LinkChild(lay: Layout, p: nat, n: Name, s: Slot, nd: Node, x: nat, more: seq<nat>): Layout
    requires p in lay.nodes && lay.nodes[p].DirNode? && |more| <= 1
  {
    var bs := lay.nodes[p].blocks;
    Layout(lay.nodes[p := DirNode(bs + more, lay.nodes[p].ents[n := s], lay.nodes[p].lost)][s.ino := nd],
           (if more == [] then lay.own else lay.own[more[0] := (p, |bs|)])[s.ino := (s.ino, -1)][x := (s.ino, 0)],
           lay.par[s.ino := (p, n)])
  }

  /** Blocks c and x are no part of the tree. */
  ghost predicate Loose(lay: Layout, c: nat, x: nat, lo: nat, hi: nat) {
    c !in lay.own && x !in lay.own && c != x && lo <= c < hi && lo <= x < hi
  }

  ghost predicate FreshFor(lay: Layout, c: nat, x: nat, more: seq<nat>, lo: nat, hi: nat) {
    && Loose(lay, c, x, lo, hi) && !Lost(lay, c) && !Lost(lay, x) && |more| <= 1 && NewBlocks(lay, more, lo, hi)
    && forall j :: 0 <= j < |more| ==> more[j] != c && more[j] != x
  }

  lemma LinkApart(lay: Layout, lo: nat, hi: nat, hi': nat,
                  p: nat, n: Name, s: Slot, nd: Node, x: nat, more: seq<nat>)
    requires LostApart(lay, lo, hi) && hi <= hi' && p in lay.nodes && lay.nodes[p].DirNode?
    requires FreshFor(lay, s.ino, x, more, lo, hi') && Leaf(nd, x)
    ensures LostApart(LinkChild(lay, p, n, s, nd, x, more), lo, hi')
  {
    var lay' := LinkChild(lay, p, n, s, nd, x, more);
    forall c: nat | Lost(lay', c) ensures lo <= c < hi' && c !in lay'.own {
      var i :| i in lay'.nodes && LostIn(lay'.nodes[i], c);
      assert LostIn(lay.nodes[i], c);
      assert Lost(lay, c);
    }
  }

  lemma LinkSeparated(lay: Layout, lo: nat, hi: nat, hi': nat,
                      p: nat, n: Name, s: Slot, nd: Node, x: nat, more: seq<nat>)
    requires Separated(lay, lo, hi) && hi <= hi'
    requires p in lay.nodes && lay.nodes[p].DirNode?
    requires FreshFor(lay, s.ino, x, more, lo, hi') && Leaf(nd, x)
    ensures Separated(LinkChild(lay, p, n, s, nd, x, more), lo, hi')
  {
    hide Lost, LostApart;
    LinkApart(lay, lo, hi, hi', p, n, s, nd, x, more);
    var lay' := LinkChild(lay, p, n, s, nd, x, more);
    forall i, k | i in lay'.nodes && 0 <= k < |lay'.nodes[i].blocks|
      ensures lay'.nodes[i].blocks[k] in lay'.own && lay'.own[lay'.nodes[i].blocks[k]] == (i, k)
    {
      if i != s.ino {
        assert i in lay.nodes;
        assert i in lay.own;
        if k < |lay.nodes[i].blocks| {
          assert lay.nodes[i].blocks[k] in lay.own;
        }
      }
    }
  }

  lemma LinkLinked(lay: Layout, root: nat, p: nat, n: Name, s: Slot, nd: Node, x: nat, more: seq<nat>)
    requires Linked(lay, root)
    requires p in lay.nodes && lay.nodes[p].DirNode? && |more| <= 1
    requires n !in lay.nodes[p].ents && s.ino !in lay.nodes && p < s.ino && Leaf(nd, x)
    ensures Linked(LinkChild(lay, p, n, s, nd, x, more), root)
  {
    var lay' := LinkChild(lay, p, n, s, nd, x, more);
    LinkChildren(lay, root, p, n, s, nd, x, more);
    forall i | i in lay'.nodes && i != root ensures ParentOk(lay', i) {
      if i != s.ino {
        assert ParentOk(lay, i);
      }
    }
  }

  lemma LinkChildren(lay: Layout, root: nat, p: nat, n: Name, s: Slot, nd: Node, x: nat, more: seq<nat>)
    requires ChildrenOk(lay, root) && root in lay.nodes
    requires p in lay.nodes && lay.nodes[p].DirNode? && |more| <= 1
    requires n !in lay.nodes[p].ents && s.ino !in lay.nodes && p < s.ino && Leaf(nd, x)
    ensures ChildrenOk(LinkChild(lay, p, n, s, nd, x, more), root)
  {
    var lay' := LinkChild(lay, p, n, s, nd, x, more);
    forall i, m | i in lay'.nodes && lay'.nodes[i].DirNode? && m in lay'.nodes[i].ents
      ensures ChildOk(lay', root, i, m, lay'.nodes[i].ents[m].ino)
    {
      if !(i == p && m == n) {
        assert ChildOk(lay, root, i, m, lay.nodes[i].ents[m].ino);
      }
    }
  }

  /** Linking a fresh leaf keeps the invariant. */
  lemma LinkRepresents(disk: Disk, disk': Disk, lay: Layout, root: nat, lo: nat, hi: nat, hi': nat,
                       p: nat, n: Name, s: Slot, nd: Node, x: nat, more: seq<nat>)
    requires Represents(disk, lay, root, lo, hi) && hi <= hi' <= |disk'|
    requires p in lay.nodes && lay.nodes[p].DirNode?
    requires n !in lay.nodes[p].ents && p < s.ino
    requires FreshFor(lay, s.ino, x, more, lo, hi') && Leaf(nd, x)
    requires NodeOk(disk', p, DirNode(lay.nodes[p].blocks + more, lay.nodes[p].ents[n := s], lay.nodes[p].lost))
    requires NodeOk(disk', s.ino, nd)
    requires forall b :: b in lay.own && b != p && b !in lay.nodes[p].blocks ==>
               Sector(disk', b) == Sector(disk, b)
    ensures Represents(disk', LinkChild(lay, p, n, s, nd, x, more), root, lo, hi')
  {
    hide Linked, Separated, NodeOk;
    LinkSeparated(lay, lo, hi, hi', p, n, s, nd, x, more);
    NodesOwned(lay, lo, hi);
    LinkLinked(lay, root, p, n, s, nd, x, more);
    var lay' := LinkChild(lay, p, n, s, nd, x, more);
    forall i | i in lay'.nodes ensures NodeOk(disk', i, lay'.nodes[i]) {
      if i != s.ino && i != p {
        OthersFrame(disk, disk', lay, lo, hi, p, i);
      }
    }
  }

  lemma NodesOwned(lay: Layout, lo: nat, hi: nat)
    requires Separated(lay, lo, hi)
    ensures forall i :: i in lay.nodes ==> i in lay.own
  {
  }

  lemma OthersFrame(disk: Disk, disk': Disk, lay: Layout, lo: nat, hi: nat, p: nat, i: nat)
    requires Separated(lay, lo, hi)
    requires p in lay.nodes && i in lay.nodes && i != p && NodeOk(disk, i, lay.nodes[i])
    requires forall b :: b in lay.own && b != p && b !in lay.nodes[p].blocks ==>
               Sector(disk', b) == Sector(disk, b)
    ensures NodeOk(disk', i, lay.nodes[i])
  {
    hide NodeOk;
    var bs, ps := lay.nodes[i].blocks, lay.nodes[p].blocks;
    assert i in lay.own && lay.own[i] == (i, -1);
    forall j | 0 <= j < |ps| ensures ps[j] != i {
      assert lay.own[ps[j]] == (p, j);
    }
    forall k | 0 <= k < |bs| ensures Sector(disk', bs[k]) == Sector(disk, bs[k]) {
      assert lay.own[bs[k]] == (i, k);
      forall j | 0 <= j < |ps| ensures ps[j] != bs[k] {
        assert lay.own[ps[j]] == (p, j);
      }
    }
    NodeFrame(disk, disk', i, lay.nodes[i]);
  }

  /** Linking a leaf gives it one path and leaves every other path alone. */
  lemma {:induction false} WalkAfterLink(lay: Layout, root: nat, p: nat, n: Name, s: Slot, nd: Node,
                                         x: nat, more: seq<nat>, pp: Path, q: Path)
    requires Linked(lay, root)
    requires p in lay.nodes && lay.nodes[p].DirNode? && |more| <= 1
    requires n !in lay.nodes[p].ents && s.ino !in lay.nodes && s.ino != 0 && Leaf(nd, x)
    requires Walk(lay, root, pp) == p
    ensures Walk(LinkChild(lay, p, n, s, nd, x, more), root, q)
         == if q == pp + [n] then s.ino else Walk(lay, root, q)
    decreases |q|
  {
    hide Linked;
    var lay' := LinkChild(lay, p, n, s, nd, x, more);
    if q != [] {
      var q', m := q[..|q| - 1], q[|q| - 1];
      assert q == q' + [m];
      WalkAfterLink(lay, root, p, n, s, nd, x, more, pp, q');
      WalkDefined(lay, root, q');
      var d := Walk(lay', root, q');
      if q' == pp + [n] {
        assert d == s.ino;
        assert Walk(lay', root, q) == 0;
        assert Walk(lay, root, q') == 0 by {
          assert q'[..|q'| - 1] == pp;
        }
        ZeroNoNode(lay, root);
        assert Walk(lay, root, q) == 0;
      } else if d == p {
        assert p != 0 by { ZeroNoNode(lay, root); }
        PathUnique(lay, root, q', pp);
      } else if d != 0 {
        assert lay'.nodes[d] == lay.nodes[d];
        assert q != pp + [n] by {
          assert q == pp + [n] ==> q' == pp;
        }
      } else {
        ZeroNoNode(lay, root);
        assert q != pp + [n] by {
          assert q == pp + [n] ==> q' == pp;
        }
      }
    } else {
      assert pp + [n] != [];
    }
  }

  lemma ZeroNoNode(lay: Layout, root: nat)
    requires Linked(lay, root)
    ensures 0 !in lay.nodes
  {
  }

  lemma LookupAfterLink(disk: Disk, disk': Disk, lay: Layout, root: nat, lo: nat, hi: nat, hi': nat,
                        p: nat, n: Name, s: Slot, nd: Node, x: nat, more: seq<nat>, pp: Path, q: Path)
    requires Represents(disk, lay, root, lo, hi)
    requires p in lay.nodes && lay.nodes[p].DirNode? && |more| <= 1
    requires n !in lay.nodes[p].ents && s.ino !in lay.nodes && s.ino != 0 && Leaf(nd, x)
    requires Walk(lay, root, pp) == p
    requires Represents(disk', LinkChild(lay, p, n, s, nd, x, more), root, lo, hi')
    ensures Lookup(disk', root, q)
         == if q == pp + [n] then (if nd.DirNode? then IsDir(s.ino) else IsFile(s.ino, []))
            else Lookup(disk, root, q)
  {
    hide Linked, Separated, NodeOk, Walk, Lookup;
    LookupIsWalk(disk, lay, root, lo, hi, q);
    LookupIsWalk(disk', LinkChild(lay, p, n, s, nd, x, more), root, lo, hi', q);
    WalkAfterLink(lay, root, p, n, s, nd, x, more, pp, q);
    PathInoIsWalk(disk, lay, root, lo, hi, q);
  }

  // ---- A directory gains an entry that is never found ----

  /** The tree whose directory p has one more block, if any, and lost inode c; its entries are what
      they were. */
  ghost function Widened(lay: Layout, p: nat, more: seq<nat>, c: nat): Layout
    requires p in lay.nodes && lay.nodes[p].DirNode? && |more| <= 1
  {
    var bs := lay.nodes[p].blocks;
    Layout(lay.nodes[p := DirNode(bs + more, lay.nodes[p].ents, lay.nodes[p].lost + {c})],
           if more == [] then lay.own else lay.own[more[0] := (p, |bs|)], lay.par)
  }

  lemma WidenedApart(lay: Layout, lo: nat, hi: nat, hi': nat, p: nat, more: seq<nat>, c: nat)
    requires LostApart(lay, lo, hi) && hi <= hi' && p in lay.nodes && lay.nodes[p].DirNode?
    requires |more| <= 1 && NewBlocks(lay, more, lo, hi') && c !in lay.own && c !in more && lo <= c < hi'
    ensures LostApart(Widened(lay, p, more, c), lo, hi')
  {
    var lay' := Widened(lay, p, more, c);
    forall x: nat | Lost(lay', x) ensures lo <= x < hi' && x !in lay'.own {
      var i :| i in lay'.nodes && LostIn(lay'.nodes[i], x);
      if x != c {
        assert LostIn(lay.nodes[i], x);
        assert Lost(lay, x);
      }
    }
  }

  lemma WidenedSeparated(lay: Layout, lo: nat, hi: nat, hi': nat, p: nat, more: seq<nat>, c: nat)
    requires Separated(lay, lo, hi) && hi <= hi' && p in lay.nodes && lay.nodes[p].DirNode?
    requires |more| <= 1 && NewBlocks(lay, more, lo, hi') && c !in lay.own && c !in more && lo <= c < hi'
    ensures Separated(Widened(lay, p, more, c), lo, hi')
  {
    hide Lost, LostApart;
    WidenedApart(lay, lo, hi, hi', p, more, c);
    var lay' := Widened(lay, p, more, c);
    forall i, k | i in lay'.nodes && 0 <= k < |lay'.nodes[i].blocks|
      ensures lay'.nodes[i].blocks[k] in lay'.own && lay'.own[lay'.nodes[i].blocks[k]] == (i, k)
    {
      assert i in lay.own;
      if k < |lay.nodes[i].blocks| { assert lay.nodes[i].blocks[k] in lay.own; }
    }
  }

  lemma WidenedLinked(lay: Layout, root: nat, p: nat, more: seq<nat>, c: nat)
    requires Linked(lay, root) && p in lay.nodes && lay.nodes[p].DirNode? && |more| <= 1
    ensures Linked(Widened(lay, p, more, c), root)
  {
    var lay' := Widened(lay, p, more, c);
    forall i, m | i in lay'.nodes && lay'.nodes[i].DirNode? && m in lay'.nodes[i].ents
      ensures ChildOk(lay', root, i, m, lay'.nodes[i].ents[m].ino)
    {
      assert ChildOk(lay, root, i, m, lay.nodes[i].ents[m].ino);
    }
    forall i | i in lay'.nodes && i != root ensures ParentOk(lay', i) {
      assert ParentOk(lay, i);
    }
  }

  lemma WidenedRepresents(disk: Disk, disk': Disk, lay: Layout, root: nat, lo: nat, hi: nat, hi': nat, p: nat,
                          more: seq<nat>, c: nat)
    requires Represents(disk, lay, root, lo, hi) && hi <= hi' <= |disk'|
    requires p in lay.nodes && lay.nodes[p].DirNode? && |more| <= 1 && NewBlocks(lay, more, lo, hi')
    requires c !in lay.own && c !in more && lo <= c < hi'
    requires NodeOk(disk', p, DirNode(lay.nodes[p].blocks + more, lay.nodes[p].ents, lay.nodes[p].lost + {c}))
    requires forall b :: b in lay.own && b != p && b !in lay.nodes[p].blocks ==>
               Sector(disk', b) == Sector(disk, b)
    ensures Represents(disk', Widened(lay, p, more, c), root, lo, hi')
  {
    hide Linked, Separated, NodeOk, NewBlocks;
    WidenedSeparated(lay, lo, hi, hi', p, more, c);
    WidenedLinked(lay, root, p, more, c);
    var lay' := Widened(lay, p, more, c);
    forall i | i in lay'.nodes ensures NodeOk(disk', i, lay'.nodes[i]) {
      if i != p { OthersFrame(disk, disk', lay, lo, hi, p, i); }
    }
  }

  lemma {:induction false} WalkWidened(lay: Layout, root: nat, p: nat, more: seq<nat>, c: nat, q: Path)
    requires p in lay.nodes && lay.nodes[p].DirNode? && |more| <= 1
    ensures Walk(Widened(lay, p, more, c), root, q) == Walk(lay, root, q)
  {
    if q != [] { WalkWidened(lay, root, p, more, c, q[..|q| - 1]); }
  }

  /** No reader notices. */
  lemma LookupWidened(disk: Disk, disk': Disk, lay: Layout, root: nat, lo: nat, hi: nat, hi': nat, p: nat,
                      more: seq<nat>, c: nat, q: Path)
    requires Represents(disk, lay, root, lo, hi) && p in lay.nodes && lay.nodes[p].DirNode? && |more| <= 1
    requires Represents(disk', Widened(lay, p, more, c), root, lo, hi')
    ensures Lookup(disk', root, q) == Lookup(disk, root, q)
  {
    hide Represents, Walk, Lookup;
    LookupIsWalk(disk, lay, root, lo, hi, q);
    LookupIsWalk(disk', Widened(lay, p, more, c), root, lo, hi', q);
    WalkWidened(lay, root, p, more, c, q);
  }

  // ---- A file gains its bytes ----

  ghost function SetFile(lay: Layout, i: nat, more: seq<nat>, data: Bytes): Layout
    requires i in lay.nodes
  {
    var bs := lay.nodes[i].blocks;
    Layout(lay.nodes[i := FileNode(bs + more, data)], OwnMore(lay.own, i, |bs|, more), lay.par)
  }

  ghost function OwnMore(own: map<nat, (nat, int)>, i: nat, k: nat, more: seq<nat>): map<nat, (nat, int)> {
    if more == [] then own else OwnMore(own, i, k, more[..|more| - 1])[more[|more| - 1] := (i, k + |more| - 1)]
  }

  lemma {:induction false} OwnMoreAt(own: map<nat, (nat, int)>, i: nat, k: nat, more: seq<nat>)
    requires forall a, b :: 0 <= a < b < |more| ==> more[a] != more[b]
    ensures forall j :: 0 <= j < |more| ==>
              more[j] in OwnMore(own, i, k, more) && OwnMore(own, i, k, more)[more[j]] == (i, k + j)
    ensures forall b :: b in own && b !in more ==>
              b in OwnMore(own, i, k, more) && OwnMore(own, i, k, more)[b] == own[b]
    ensures forall b :: b in OwnMore(own, i, k, more) ==> b in own || b in more
  {
    if more != [] {
      OwnMoreAt(own, i, k, more[..|more| - 1]);
    }
  }

  ghost predicate NewBlocks(lay: Layout, more: seq<nat>, lo: nat, hi: nat) {
    && (forall j :: 0 <= j < |more| ==> more[j] !in lay.own && !Lost(lay, more[j]) && lo <= more[j] < hi)
    && (forall j, k :: 0 <= j < k < |more| ==> more[j] != more[k])
  }

  lemma SetFileApart(lay: Layout, lo: nat, hi: nat, hi': nat, i: nat, more: seq<nat>, data: Bytes)
    requires LostApart(lay, lo, hi) && hi <= hi' && i in lay.nodes && NewBlocks(lay, more, lo, hi')
    ensures LostApart(SetFile(lay, i, more, data), lo, hi')
  {
    hide OwnMore;
    var lay' := SetFile(lay, i, more, data);
    OwnMoreAt(lay.own, i, |lay.nodes[i].blocks|, more);
    forall c: nat | Lost(lay', c) ensures lo <= c < hi' && c !in lay'.own {
      var h :| h in lay'.nodes && LostIn(lay'.nodes[h], c);
      assert LostIn(lay.nodes[h], c);
      assert Lost(lay, c);
    }
  }

  lemma SetFileSeparated(lay: Layout, lo: nat, hi: nat, hi': nat, i: nat, more: seq<nat>, data: Bytes)
    requires Separated(lay, lo, hi) && hi <= hi'
    requires i in lay.nodes && NewBlocks(lay, more, lo, hi')
    ensures Separated(SetFile(lay, i, more, data), lo, hi')
  {
    hide OwnMore, Lost, LostApart;
    SetFileApart(lay, lo, hi, hi', i, more, data);
    var lay' := SetFile(lay, i, more, data);
    var bs := lay.nodes[i].blocks;
    OwnMoreAt(lay.own, i, |bs|, more);
    assert forall b :: b in lay.own ==> b !in more;
    forall h, k | h in lay'.nodes && 0 <= k < |lay'.nodes[h].blocks|
      ensures lay'.nodes[h].blocks[k] in lay'.own && lay'.own[lay'.nodes[h].blocks[k]] == (h, k)
    {
      if h == i && k >= |bs| {
        assert (bs + more)[k] == more[k - |bs|];
      } else {
        assert lay'.nodes[h].blocks[k] == lay.nodes[h].blocks[k];
        assert lay.nodes[h].blocks[k] in lay.own;
      }
    }
  }

  lemma SetFileRepresents(disk: Disk, disk': Disk, lay: Layout, root: nat, lo: nat, hi: nat, hi': nat,
                          i: nat, more: seq<nat>, data: Bytes)
    requires Represents(disk, lay, root, lo, hi) && hi <= hi' <= |disk'|
    requires i in lay.nodes && lay.nodes[i].FileNode? && NewBlocks(lay, more, lo, hi')
    requires NodeOk(disk', i, FileNode(lay.nodes[i].blocks + more, data))
    requires forall b :: b in lay.own && b != i && b !in lay.nodes[i].blocks ==>
               Sector(disk', b) == Sector(disk, b)
    ensures Represents(disk', SetFile(lay, i, more, data), root, lo, hi')
  {
    hide Linked, Separated, NodeOk, OwnMore, NewBlocks;
    var lay' := SetFile(lay, i, more, data);
    SetFileSeparated(lay, lo, hi, hi', i, more, data);
    SetFileLinked(lay, root, i, more, data);
    forall h | h in lay'.nodes ensures NodeOk(disk', h, lay'.nodes[h]) {
      if h != i {
        OthersFrame(disk, disk', lay, lo, hi, i, h);
      }
    }
  }

  lemma SetFileLinked(lay: Layout, root: nat, i: nat, more: seq<nat>, data: Bytes)
    requires Linked(lay, root) && i in lay.nodes && lay.nodes[i].FileNode?
    ensures Linked(SetFile(lay, i, more, data), root)
  {
  }

  lemma {:induction false} WalkAfterSetFile(lay: Layout, root: nat, i: nat, more: seq<nat>, data: Bytes, q: Path)
    requires i in lay.nodes && lay.nodes[i].FileNode?
    ensures Walk(SetFile(lay, i, more, data), root, q) == Walk(lay, root, q)
  {
    if q != [] {
      WalkAfterSetFile(lay, root, i, more, data, q[..|q| - 1]);
    }
  }

  lemma LookupAfterSetFile(disk: Disk, disk': Disk, lay: Layout, root: nat, lo: nat, hi: nat, hi': nat,
                           i: nat, more: seq<nat>, data: Bytes, fp: Path, q: Path)
    requires Represents(disk, lay, root, lo, hi)
    requires i in lay.nodes && lay.nodes[i].FileNode?
    requires Walk(lay, root, fp) == i
    requires Represents(disk', SetFile(lay, i, more, data), root, lo, hi')
    ensures Lookup(disk', root, q) == if q == fp then IsFile(i, data) else Lookup(disk, root, q)
  {
    hide Linked, Separated, NodeOk, Walk, Lookup;
    var lay' := SetFile(lay, i, more, data);
    LookupIsWalk(disk, lay, root, lo, hi, q);
    LookupIsWalk(disk', lay', root, lo, hi', q);
    WalkAfterSetFile(lay, root, i, more, data, q);
    ZeroNoNode(lay, root);
    if Walk(lay, root, q) == i {
      PathUnique(lay, root, q, fp);
    }
  }
}

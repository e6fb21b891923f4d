/** Names in a directory: when they are unique, and that every inode of the tree has one entry. */
module XfsNames {
  import opened XfsCodec
  import opened XfsTree
  import opened XfsChange

  // ---- One directory ----

  function NameAt(disk: Disk, bs: seq<nat>, k: nat, d: nat): Name
    requires k < |bs| && d < DENTS_PER_BLOCK
  {
    DentName(Sector(disk, bs[k]), d)
  }

  /** No two live entries have the same name. */
  ghost predicate NamesOnce(disk: Disk, bs: seq<nat>) {
    forall k, d, l, e ::
      0 <= k < |bs| && 0 <= d < DENTS_PER_BLOCK && 0 <= l < |bs| && 0 <= e < DENTS_PER_BLOCK ==>
        (Live(disk, bs, k, d) && Live(disk, bs, l, e) && NameAt(disk, bs, k, d) == NameAt(disk, bs, l, e) ==>
           k == l && d == e)
  }

  /** They are unique exactly if no entry is lost. */
  lemma {:induction false} OnceIsNoneLost(disk: Disk, bs: seq<nat>, ents: map<Name, Slot>, lost: set<nat>)
    requires DirOk(disk, bs, ents, lost)
    ensures NamesOnce(disk, bs) <==> lost == {}
  {
    if lost == {} {
      AllRecorded(disk, bs, ents, lost);
    } else {
      var c :| c in lost;
      SomeTwice(disk, bs, ents, lost, c);
    }
  }

  lemma AllRecorded(disk: Disk, bs: seq<nat>, ents: map<Name, Slot>, lost: set<nat>)
    requires DirOk(disk, bs, ents, lost) && lost == {}
    ensures NamesOnce(disk, bs)
  {
    hide DentIno, DentName, Packed, LostOk;
    forall k, d | 0 <= k < |bs| && 0 <= d < DENTS_PER_BLOCK && Live(disk, bs, k, d)
      ensures NameAt(disk, bs, k, d) in ents && ents[NameAt(disk, bs, k, d)].k == k
      ensures ents[NameAt(disk, bs, k, d)].d == d
    {
      assert SlotOk(Sector(disk, bs[k]), k, d, ents, lost);
    }
  }

  lemma SomeTwice(disk: Disk, bs: seq<nat>, ents: map<Name, Slot>, lost: set<nat>, c: nat)
    requires DirOk(disk, bs, ents, lost) && c in lost
    ensures !NamesOnce(disk, bs)
  {
    hide DentIno, DentName, Packed, SlotOk;
    assert LostOk(disk, bs, ents, c);
    var k, d :| 0 <= k < |bs| && 0 <= d < DENTS_PER_BLOCK && ShadowAt(disk, bs, ents, k, d, c);
    var n := NameAt(disk, bs, k, d);
    assert EntOk(disk, bs, n, ents[n]);
    assert Live(disk, bs, ents[n].k, ents[n].d) && NameAt(disk, bs, ents[n].k, ents[n].d) == n;
  }

  // ---- The whole tree ----

  /** The names in every directory that a path leads to are unique. */
  ghost predicate UniqueNames(disk: Disk, root: nat) {
    forall q :: IsDirAt(disk, root, q) ==> NamesOnce(disk, BlocksAt(disk, root, q))
  }

  predicate IsDirAt(disk: Disk, root: nat, q: Path) {
    PathIno(disk, root, q) != 0 && InodeAt(disk, PathIno(disk, root, q)).IsDir()
  }

  function BlocksAt(disk: Disk, root: nat, q: Path): seq<nat> { DirBlocks(InodeAt(disk, PathIno(disk, root, q))) }

  ghost predicate NoneLost(lay: Layout) { forall c: nat :: !Lost(lay, c) }

  /** Every inode of the tree is reached by a path. */
  lemma {:induction false} Reached(lay: Layout, root: nat, i: nat) returns (q: Path)
    requires Linked(lay, root) && i in lay.nodes
    ensures Walk(lay, root, q) == i
    decreases i
  {
    if i == root { return []; }
    var p, n := ParentFirst(lay, root, i);
    var pp := Reached(lay, root, p);
    q := pp + [n];
    assert q[..|q| - 1] == pp;
  }

  lemma ParentFirst(lay: Layout, root: nat, i: nat) returns (p: nat, n: Name)
    requires Linked(lay, root) && i in lay.nodes && i != root
    ensures p in lay.nodes && p < i && lay.nodes[p].DirNode? && n in lay.nodes[p].ents && lay.nodes[p].ents[n].ino == i
  {
    assert ParentOk(lay, i);
    p, n := lay.par[i].0, lay.par[i].1;
    assert ChildOk(lay, root, p, n, lay.nodes[p].ents[n].ino);
  }

  /** What a path leads to, in the tree. */
  lemma DirAt(disk: Disk, lay: Layout, root: nat, lo: nat, hi: nat, q: Path)
    requires Represents(disk, lay, root, lo, hi)
    ensures PathIno(disk, root, q) == Walk(lay, root, q)
    ensures PathIno(disk, root, q) != 0 ==>
              && Walk(lay, root, q) in lay.nodes
              && (IsDirAt(disk, root, q) <==> lay.nodes[Walk(lay, root, q)].DirNode?)
              && BlocksAt(disk, root, q) == lay.nodes[Walk(lay, root, q)].blocks
              && NodeOk(disk, Walk(lay, root, q), lay.nodes[Walk(lay, root, q)])
  {
    hide Linked, Separated, DirOk, Walk, PathIno;
    PathInoIsWalk(disk, lay, root, lo, hi, q);
    var i := Walk(lay, root, q);
    if i != 0 {
      assert NodeOk(disk, i, lay.nodes[i]);
      BlocksOf(disk, i, lay.nodes[i]);
      assert Owned(disk, i)[1..] == DirBlocks(InodeAt(disk, i));
      assert ([i] + lay.nodes[i].blocks)[1..] == lay.nodes[i].blocks;
    }
  }

  lemma {:induction false} UniqueIs(disk: Disk, lay: Layout, root: nat, lo: nat, hi: nat)
    requires Represents(disk, lay, root, lo, hi)
    ensures UniqueNames(disk, root) <==> NoneLost(lay)
  {
    hide Represents, NamesOnce, DirOk, Walk, PathIno, BlocksAt, IsDirAt;
    if NoneLost(lay) {
      forall q | IsDirAt(disk, root, q) ensures NamesOnce(disk, BlocksAt(disk, root, q)) {
        OnceAt(disk, lay, root, lo, hi, q);
      }
    } else {
      var c: nat :| Lost(lay, c);
      var i :| i in lay.nodes && LostIn(lay.nodes[i], c);
      LinkedIs(disk, lay, root, lo, hi);
      var q := Reached(lay, root, i);
      TwiceAt(disk, lay, root, lo, hi, q, c);
    }
  }

  lemma LinkedIs(disk: Disk, lay: Layout, root: nat, lo: nat, hi: nat)
    requires Represents(disk, lay, root, lo, hi)
    ensures Linked(lay, root) && 0 !in lay.nodes
  {
  }

  lemma OnceAt(disk: Disk, lay: Layout, root: nat, lo: nat, hi: nat, q: Path)
    requires Represents(disk, lay, root, lo, hi) && NoneLost(lay) && IsDirAt(disk, root, q)
    ensures NamesOnce(disk, BlocksAt(disk, root, q))
  {
    hide Represents, NamesOnce, DirOk, Walk, PathIno, BlocksAt, InodeAt;
    DirAt(disk, lay, root, lo, hi, q);
    var nd := lay.nodes[Walk(lay, root, q)];
    assert forall c: nat :: LostIn(nd, c) ==> Lost(lay, c);
    assert forall c :: c in nd.lost ==> LostIn(nd, c);
    OnceIsNoneLost(disk, nd.blocks, nd.ents, nd.lost);
  }

  lemma TwiceAt(disk: Disk, lay: Layout, root: nat, lo: nat, hi: nat, q: Path, c: nat)
    requires Represents(disk, lay, root, lo, hi) && Walk(lay, root, q) in lay.nodes
    requires LostIn(lay.nodes[Walk(lay, root, q)], c)
    ensures IsDirAt(disk, root, q) && !NamesOnce(disk, BlocksAt(disk, root, q))
  {
    hide Represents, NamesOnce, DirOk, Walk, PathIno, BlocksAt, InodeAt;
    LinkedIs(disk, lay, root, lo, hi);
    DirAt(disk, lay, root, lo, hi, q);
    var nd := lay.nodes[Walk(lay, root, q)];
    OnceIsNoneLost(disk, nd.blocks, nd.ents, nd.lost);
  }

  // ---- What operations do to it ----

  lemma LinkLoses(lay: Layout, p: nat, n: Name, s: Slot, nd: Node, x: nat, more: seq<nat>)
    requires p in lay.nodes && lay.nodes[p].DirNode? && |more| <= 1 && Leaf(nd, x) && s.ino !in lay.nodes
    ensures NoneLost(LinkChild(lay, p, n, s, nd, x, more)) <==> NoneLost(lay)
  {
    var lay' := LinkChild(lay, p, n, s, nd, x, more);
    forall c: nat ensures Lost(lay', c) <==> Lost(lay, c) {
      if Lost(lay, c) {
        var i :| i in lay.nodes && LostIn(lay.nodes[i], c);
        assert i in lay'.nodes && LostIn(lay'.nodes[i], c);
      }
      if Lost(lay', c) {
        var i :| i in lay'.nodes && LostIn(lay'.nodes[i], c);
        assert i in lay.nodes && LostIn(lay.nodes[i], c);
      }
    }
  }

  lemma WidenedLoses(lay: Layout, p: nat, more: seq<nat>, c: nat)
    requires p in lay.nodes && lay.nodes[p].DirNode? && |more| <= 1
    ensures !NoneLost(Widened(lay, p, more, c))
  {
    assert LostIn(Widened(lay, p, more, c).nodes[p], c);
    assert Lost(Widened(lay, p, more, c), c);
  }

  lemma SetFileLoses(lay: Layout, i: nat, more: seq<nat>, data: Bytes)
    requires i in lay.nodes && lay.nodes[i].FileNode?
    ensures NoneLost(SetFile(lay, i, more, data)) <==> NoneLost(lay)
  {
    var lay' := SetFile(lay, i, more, data);
    forall c: nat ensures Lost(lay', c) <==> Lost(lay, c) {
      if Lost(lay, c) {
        var h :| h in lay.nodes && LostIn(lay.nodes[h], c);
        assert h in lay'.nodes && LostIn(lay'.nodes[h], c);
      }
      if Lost(lay', c) {
        var h :| h in lay'.nodes && LostIn(lay'.nodes[h], c);
        assert h in lay.nodes && LostIn(lay.nodes[h], c);
      }
    }
  }

  // ---- One entry per inode ----

  /** Slot (k, d) of the directory at p is a live entry with this name and inode. */
  ghost predicate EntryIn(disk: Disk, root: nat, p: Path, k: nat, d: nat, n: Name, c: nat) {
    && IsDirAt(disk, root, p) && k < |BlocksAt(disk, root, p)| && d < DENTS_PER_BLOCK
    && var b := Sector(disk, BlocksAt(disk, root, p)[k]); c != 0 && DentIno(b, d) == c && DentName(b, d) == n
  }

  /** What a path other than the root's leads to has exactly one entry in the whole tree: in the
      directory that the rest of the path leads to, with the path's last name. */
  lemma {:induction false} NamedOnce(disk: Disk, lay: Layout, root: nat, lo: nat, hi: nat, q: Path)
    returns (k: nat, d: nat)
    requires Represents(disk, lay, root, lo, hi) && q != [] && PathIno(disk, root, q) != 0
    ensures EntryIn(disk, root, q[..|q| - 1], k, d, q[|q| - 1], PathIno(disk, root, q))
    ensures forall p, l, e, n :: EntryIn(disk, root, p, l, e, n, PathIno(disk, root, q)) ==>
              p == q[..|q| - 1] && n == q[|q| - 1] && l == k && e == d
  {
    hide Represents, PathIno, EntryIn, Walk;
    k, d := NamedAt(disk, lay, root, lo, hi, q);
    forall p, l, e, n | EntryIn(disk, root, p, l, e, n, PathIno(disk, root, q))
      ensures p == q[..|q| - 1] && n == q[|q| - 1] && l == k && e == d
    {
      OnlyName(disk, lay, root, lo, hi, q, p, l, e, n, k, d);
    }
  }

  /** The slot recorded for the last name of a path. */
  ghost predicate RecordedAt(lay: Layout, root: nat, p: Path, n: Name, s: Slot) {
    var i := Walk(lay, root, p);
    i in lay.nodes && lay.nodes[i].DirNode? && n in lay.nodes[i].ents && lay.nodes[i].ents[n] == s
  }

  lemma NamedAt(disk: Disk, lay: Layout, root: nat, lo: nat, hi: nat, q: Path) returns (k: nat, d: nat)
    requires Represents(disk, lay, root, lo, hi) && q != [] && PathIno(disk, root, q) != 0
    ensures EntryIn(disk, root, q[..|q| - 1], k, d, q[|q| - 1], PathIno(disk, root, q))
    ensures RecordedAt(lay, root, q[..|q| - 1], q[|q| - 1], Slot(PathIno(disk, root, q), k, d))
  {
    hide Represents, PathIno, IsDirAt, BlocksAt, InodeOk, SlotOk, LostOk, Packed, DentIno, DentName;
    var p, n := q[..|q| - 1], q[|q| - 1];
    LinkedIs(disk, lay, root, lo, hi);
    DirAt(disk, lay, root, lo, hi, q);
    DirAt(disk, lay, root, lo, hi, p);
    var nd := lay.nodes[Walk(lay, root, p)];
    assert EntOk(disk, nd.blocks, n, nd.ents[n]);
    k, d := nd.ents[n].k, nd.ents[n].d;
  }

  lemma OnlyName(disk: Disk, lay: Layout, root: nat, lo: nat, hi: nat, q: Path, p: Path, l: nat, e: nat, n: Name,
                 k: nat, d: nat)
    requires Represents(disk, lay, root, lo, hi) && q != [] && PathIno(disk, root, q) != 0
    requires RecordedAt(lay, root, q[..|q| - 1], q[|q| - 1], Slot(PathIno(disk, root, q), k, d))
    requires EntryIn(disk, root, p, l, e, n, PathIno(disk, root, q))
    ensures p == q[..|q| - 1] && n == q[|q| - 1] && l == k && e == d
  {
    var c := PathIno(disk, root, q);
    EntryRecorded(disk, lay, root, lo, hi, q, p, l, e, n);
    hide Represents, PathIno, EntryIn, Walk;
    LinkedIs(disk, lay, root, lo, hi);
    SameParent(lay, root, q[..|q| - 1], q[|q| - 1], Slot(c, k, d), p, n, Slot(c, l, e));
  }

  lemma EntryRecorded(disk: Disk, lay: Layout, root: nat, lo: nat, hi: nat, q: Path, p: Path, l: nat, e: nat, n: Name)
    requires Represents(disk, lay, root, lo, hi) && PathIno(disk, root, q) != 0
    requires EntryIn(disk, root, p, l, e, n, PathIno(disk, root, q))
    ensures RecordedAt(lay, root, p, n, Slot(PathIno(disk, root, q), l, e))
  {
    hide Represents, PathIno, BlocksAt, InodeOk, LostOk, Packed, DentIno, DentName, DentTail, Walk, InodeAt;
    DirAt(disk, lay, root, lo, hi, q);
    DirAt(disk, lay, root, lo, hi, p);
    var c, nd := PathIno(disk, root, q), lay.nodes[Walk(lay, root, p)];
    assert SlotOk(Sector(disk, nd.blocks[l]), l, e, nd.ents, nd.lost);
    if c in nd.lost {
      assert LostIn(nd, c) && Lost(lay, c);
      NodeNotLost(disk, lay, root, lo, hi, c);
    }
  }

  lemma NodeNotLost(disk: Disk, lay: Layout, root: nat, lo: nat, hi: nat, c: nat)
    requires Represents(disk, lay, root, lo, hi) && c in lay.nodes
    ensures !Lost(lay, c)
  {
    hide Linked, NodeOk, Lost;
    assert c in lay.own;
  }

  lemma SameParent(lay: Layout, root: nat, p: Path, n: Name, s: Slot, p': Path, n': Name, s': Slot)
    requires Linked(lay, root) && RecordedAt(lay, root, p, n, s) && RecordedAt(lay, root, p', n', s') && s.ino == s'.ino
    ensures p == p' && n == n' && s == s'
  {
    var i, i' := Walk(lay, root, p), Walk(lay, root, p');
    assert ChildOk(lay, root, i, n, s.ino) && ChildOk(lay, root, i', n', s.ino);
    hide Linked, Walk;
    ZeroNoNode(lay, root);
    PathUnique(lay, root, p, p');
  }
}

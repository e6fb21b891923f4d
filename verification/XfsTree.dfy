/** What a disk image means: the map from paths to directories and files that a
    reader of the raw blocks sees, and the layout invariant that ties the blocks
    to a tree of inodes owning pairwise distinct blocks. */
module XfsTree {
  import opened XfsCodec

  type Disk = seq<Block>
  type Name = Bytes
  type Path = seq<Name>

  // ---- Reading the raw image ----

  function Sector(disk: Disk, b: nat): Block {
    if b < |disk| then disk[b] else ZERO_BLOCK
  }

  function InodeAt(disk: Disk, i: nat): (r: Inode)
    ensures |r.dataBlocks| == MAX_BLOCKS && |r.name| == NAME_MAX
  {
    DecodeInode(Sector(disk, i))
  }

  /** First live entry named `name` at index d or later of one directory block; 0 if none. */
  function FindInBlock(b: Block, name: Name, d: nat): nat
    requires d <= DENTS_PER_BLOCK
    decreases DENTS_PER_BLOCK - d
  {
    if d == DENTS_PER_BLOCK then 0
    else if DentIno(b, d) != 0 && DentName(b, d) == name then DentIno(b, d)
    else FindInBlock(b, name, d + 1)
  }

  function FindInBlocks(disk: Disk, bs: seq<nat>, name: Name): nat
    decreases |bs|
  {
    if bs == [] then 0 else
    var r := if bs[0] == 0 then 0 else FindInBlock(Sector(disk, bs[0]), name, 0);
    if r != 0 then r else FindInBlocks(disk, bs[1..], name)
  }

  function DirBlocks(ino: Inode): seq<nat>
    requires |ino.dataBlocks| == MAX_BLOCKS
  {
    if ino.blockCount <= MAX_BLOCKS then ino.dataBlocks[..ino.blockCount] else ino.dataBlocks
  }

  function FindInDir(disk: Disk, i: nat, name: Name): nat {
    FindInBlocks(disk, DirBlocks(InodeAt(disk, i)), name)
  }

  /** The inode block a path leads to from the root, 0 if there is none.
      Files have no children. */
  function PathIno(disk: Disk, root: nat, q: Path): nat {
    if q == [] then root else
    var d := PathIno(disk, root, q[..|q| - 1]);
    if d == 0 || !InodeAt(disk, d).IsDir() then 0 else FindInDir(disk, d, q[|q| - 1])
  }

  /** The first `size` bytes stored in a list of data blocks. */
  function StoredBytes(disk: Disk, bs: seq<nat>, size: nat): (r: Bytes)
    requires size <= BLOCK_SIZE * |bs|
    ensures |r| == size
  {
    seq(size, j requires 0 <= j < size => Sector(disk, bs[j / BLOCK_SIZE])[j % BLOCK_SIZE])
  }

  datatype Entry = Absent | IsDir(ino: nat) | IsFile(ino: nat, data: Bytes)

  function EntryAt(disk: Disk, i: nat): Entry {
    var ino := InodeAt(disk, i);
    if i == 0 then Absent
    else if ino.IsDir() then IsDir(i)
    else IsFile(i, if ino.size <= BLOCK_SIZE * |DirBlocks(ino)|
                   then StoredBytes(disk, DirBlocks(ino), ino.size) else [])
  }

  /** What a reader of the image finds at a path. */
  function Lookup(disk: Disk, root: nat, q: Path): Entry {
    EntryAt(disk, PathIno(disk, root, q))
  }

  // ---- The tree behind the image ----

  datatype Slot = Slot(ino: nat, k: nat, d: nat)
  datatype Node =
    | DirNode(blocks: seq<nat>, ents: map<Name, Slot>, lost: set<nat>)
    | FileNode(blocks: seq<nat>, data: Bytes)

  /** own says which block plays which part: (i, -1) for the inode block of i,
      (i, k) for its k-th data block. par names each inode's only dirent. The inodes
      whose dirents are never found, a directory's lost ones, are no part of the tree. */
  datatype Layout = Layout(nodes: map<nat, Node>, own: map<nat, (nat, int)>,
                           par: map<nat, (nat, Name)>)

  ghost predicate GoodName(n: Name) {
    1 <= |n| <= NAME_MAX - 1 && 0 !in n
  }

  /** Slot (k, d) is searched before slot (l, e). */
  ghost predicate Earlier(k: nat, d: nat, l: nat, e: nat) { k < l || (k == l && d < e) }

  /** A live directory slot is the one recorded for its name, or comes behind it, is never found, and
      its inode is lost. */
  ghost predicate SlotOk(b: Block, k: nat, d: nat, ents: map<Name, Slot>, lost: set<nat>)
    requires d < DENTS_PER_BLOCK
  {
    && DentTail(b, d) == 0
    && (DentIno(b, d) != 0 ==>
          && DentName(b, d) in ents
          && var s := ents[DentName(b, d)];
             s == Slot(DentIno(b, d), k, d) || (Earlier(s.k, s.d, k, d) && DentIno(b, d) in lost))
  }

  /** A second live slot for a name, behind the one that is found. */
  ghost predicate ShadowAt(disk: Disk, bs: seq<nat>, ents: map<Name, Slot>, k: nat, d: nat, c: nat)
    requires k < |bs| && d < DENTS_PER_BLOCK
  {
    && Live(disk, bs, k, d) && DentIno(Sector(disk, bs[k]), d) == c && DentName(Sector(disk, bs[k]), d) in ents
    && var s := ents[DentName(Sector(disk, bs[k]), d)]; Earlier(s.k, s.d, k, d)
  }

  ghost predicate LostOk(disk: Disk, bs: seq<nat>, ents: map<Name, Slot>, c: nat) {
    exists k, d :: 0 <= k < |bs| && 0 <= d < DENTS_PER_BLOCK && ShadowAt(disk, bs, ents, k, d, c)
  }

  predicate Live(disk: Disk, bs: seq<nat>, k: nat, d: nat)
    requires k < |bs| && d < DENTS_PER_BLOCK
  {
    DentIno(Sector(disk, bs[k]), d) != 0
  }

  /** The live slots come first. */
  ghost predicate Packed(disk: Disk, bs: seq<nat>) {
    forall k, d, l, e ::
      0 <= k < |bs| && 0 <= d < DENTS_PER_BLOCK && 0 <= l < |bs| && 0 <= e < DENTS_PER_BLOCK ==>
        (Earlier(k, d, l, e) && Live(disk, bs, l, e) ==> Live(disk, bs, k, d))
  }

  ghost predicate EntOk(disk: Disk, bs: seq<nat>, n: Name, s: Slot) {
    && GoodName(n) && s.ino != 0 && s.k < |bs| && s.d < DENTS_PER_BLOCK
    && DentIno(Sector(disk, bs[s.k]), s.d) == s.ino
    && DentName(Sector(disk, bs[s.k]), s.d) == n
  }

  ghost predicate DirOk(disk: Disk, bs: seq<nat>, ents: map<Name, Slot>, lost: set<nat>) {
    && (forall k, d :: 0 <= k < |bs| && 0 <= d < DENTS_PER_BLOCK ==>
          SlotOk(Sector(disk, bs[k]), k, d, ents, lost))
    && (forall n :: n in ents ==> EntOk(disk, bs, n, ents[n]))
    && (forall c :: c in lost ==> LostOk(disk, bs, ents, c))
    && Packed(disk, bs)
  }

  ghost predicate InodeOk(ino: Inode, nd: Node)
    requires |ino.dataBlocks| == MAX_BLOCKS
  {
    && (ino.IsDir() <==> nd.DirNode?)
    && ino.blockCount == |nd.blocks| && 1 <= |nd.blocks| <= MAX_BLOCKS
    && ino.dataBlocks[..|nd.blocks|] == nd.blocks
    && (nd.FileNode? ==> ino.size == |nd.data| <= BLOCK_SIZE * |nd.blocks|)
  }

  ghost predicate NodeOk(disk: Disk, i: nat, nd: Node) {
    && InodeOk(InodeAt(disk, i), nd)
    && (nd.DirNode? ==> DirOk(disk, nd.blocks, nd.ents, nd.lost))
    && (nd.FileNode? ==> StoredBytes(disk, nd.blocks, |nd.data|) == nd.data)
  }

  /** Ownership: distinct parts are distinct blocks, all between lo and hi. */
  ghost predicate Separated(lay: Layout, lo: nat, hi: nat) {
    && (forall i :: i in lay.nodes ==> i in lay.own && lay.own[i] == (i, -1))
    && (forall i, k :: i in lay.nodes && 0 <= k < |lay.nodes[i].blocks| ==>
          lay.nodes[i].blocks[k] in lay.own && lay.own[lay.nodes[i].blocks[k]] == (i, k))
    && (forall b :: b in lay.own ==> lo <= b < hi)
    && LostApart(lay, lo, hi)
  }

  ghost predicate Lost(lay: Layout, c: nat) {
    exists i :: i in lay.nodes && LostIn(lay.nodes[i], c)
  }

  /** Lost inodes are in range, and no part of the tree. */
  ghost predicate LostApart(lay: Layout, lo: nat, hi: nat) {
    forall c: nat :: Lost(lay, c) ==> lo <= c < hi && c !in lay.own
  }

  ghost predicate LostIn(nd: Node, c: nat) { nd.DirNode? && c in nd.lost }

  /** A dirent names a newer inode that records the dirent as its own. */
  ghost predicate ChildrenOk(lay: Layout, root: nat) {
    forall i, n :: i in lay.nodes && lay.nodes[i].DirNode? && n in lay.nodes[i].ents ==>
      ChildOk(lay, root, i, n, lay.nodes[i].ents[n].ino)
  }

  ghost predicate ChildOk(lay: Layout, root: nat, i: nat, n: Name, c: nat) {
    c in lay.nodes && c != root && i < c && c in lay.par && lay.par[c] == (i, n)
  }

  ghost predicate ParentOk(lay: Layout, i: nat) {
    && i in lay.par && lay.par[i].0 in lay.nodes && lay.nodes[lay.par[i].0].DirNode?
    && lay.par[i].1 in lay.nodes[lay.par[i].0].ents
    && lay.nodes[lay.par[i].0].ents[lay.par[i].1].ino == i
  }

  /** Every inode but the root is named by exactly one dirent, in an older directory. */
  ghost predicate Linked(lay: Layout, root: nat) {
    && 0 !in lay.nodes && root in lay.nodes && lay.nodes[root].DirNode?
    && ChildrenOk(lay, root)
    && (forall i :: i in lay.nodes && i != root ==> ParentOk(lay, i))
  }

  ghost predicate Represents(disk: Disk, lay: Layout, root: nat, lo: nat, hi: nat) {
    && 0 < lo && hi <= |disk|
    && Separated(lay, lo, hi)
    && Linked(lay, root)
    && forall i :: i in lay.nodes ==> NodeOk(disk, i, lay.nodes[i])
  }

  ghost function Walk(lay: Layout, root: nat, q: Path): nat {
    if q == [] then root else
    var d := Walk(lay, root, q[..|q| - 1]);
    if d in lay.nodes && lay.nodes[d].DirNode? && q[|q| - 1] in lay.nodes[d].ents
    then lay.nodes[d].ents[q[|q| - 1]].ino else 0
  }

  ghost function NodeEntry(lay: Layout, i: nat): Entry {
    if i !in lay.nodes then Absent
    else match lay.nodes[i]
      case DirNode(_, _, _) => IsDir(i)
      case FileNode(_, data) => IsFile(i, data)
  }

  // ---- Directory search finds exactly the recorded entry ----

  lemma {:induction false} FindInBlockHit(b: Block, k: nat, n: Name, ents: map<Name, Slot>, lost: set<nat>, d: nat)
    requires d <= DENTS_PER_BLOCK
    requires forall e :: 0 <= e < DENTS_PER_BLOCK ==> SlotOk(b, k, e, ents, lost)
    ensures n !in ents || k < ents[n].k ==> FindInBlock(b, n, d) == 0
    ensures n in ents && ents[n].k == k && d <= ents[n].d < DENTS_PER_BLOCK && ents[n].ino != 0
            && DentIno(b, ents[n].d) == ents[n].ino && DentName(b, ents[n].d) == n
            ==> FindInBlock(b, n, d) == ents[n].ino
    decreases DENTS_PER_BLOCK - d
  {
    if d < DENTS_PER_BLOCK {
      assert SlotOk(b, k, d, ents, lost);
      FindInBlockHit(b, k, n, ents, lost, d + 1);
    }
  }

  lemma {:induction false} FindInBlocksHit(disk: Disk, bs: seq<nat>, ents: map<Name, Slot>, lost: set<nat>, n: Name,
                                           k: nat)
    requires DirOk(disk, bs, ents, lost) && k <= |bs|
    requires forall j :: 0 <= j < |bs| ==> bs[j] != 0
    ensures n !in ents ==> FindInBlocks(disk, bs[k..], n) == 0
    ensures n in ents && k <= ents[n].k ==> FindInBlocks(disk, bs[k..], n) == ents[n].ino
    decreases |bs| - k
  {
    hide Packed, LostOk;
    assert n in ents ==> EntOk(disk, bs, n, ents[n]);
    if k < |bs| {
      assert bs[k..][1..] == bs[k + 1..];
      FindInBlockHit(Sector(disk, bs[k]), k, n, ents, lost, 0);
      FindInBlocksHit(disk, bs, ents, lost, n, k + 1);
    }
  }

  /** Looking a name up in a directory's blocks is looking it up in its entries. */
  lemma FindInDirIsMap(disk: Disk, lay: Layout, root: nat, lo: nat, hi: nat, i: nat, n: Name)
    requires Represents(disk, lay, root, lo, hi)
    requires i in lay.nodes && lay.nodes[i].DirNode?
    ensures FindInDir(disk, i, n)
         == if n in lay.nodes[i].ents then lay.nodes[i].ents[n].ino else 0
  {
    var nd := lay.nodes[i];
    hide Linked, FindInBlocks, DirOk;
    assert NodeOk(disk, i, nd);
    assert DirBlocks(InodeAt(disk, i)) == nd.blocks == nd.blocks[0..];
    assert forall j :: 0 <= j < |nd.blocks| ==> nd.blocks[j] in lay.own;
    FindInBlocksHit(disk, nd.blocks, nd.ents, nd.lost, n, 0);
  }

  lemma {:induction false} PathInoIsWalk(disk: Disk, lay: Layout, root: nat, lo: nat, hi: nat, q: Path)
    requires Represents(disk, lay, root, lo, hi)
    ensures PathIno(disk, root, q) == Walk(lay, root, q)
    ensures Walk(lay, root, q) != 0 ==> Walk(lay, root, q) in lay.nodes
  {
    assert root in lay.own;
    if q != [] {
      var p := q[..|q| - 1];
      PathInoIsWalk(disk, lay, root, lo, hi, p);
      var d := Walk(lay, root, p);
      if d != 0 {
        assert NodeOk(disk, d, lay.nodes[d]);
        if lay.nodes[d].DirNode? {
          FindInDirIsMap(disk, lay, root, lo, hi, d, q[|q| - 1]);
        }
      }
    }
  }

  lemma EntryIsNode(disk: Disk, i: nat, nd: Node)
    requires NodeOk(disk, i, nd) && i != 0
    ensures EntryAt(disk, i) == if nd.DirNode? then IsDir(i) else IsFile(i, nd.data)
  {
    assert DirBlocks(InodeAt(disk, i)) == nd.blocks;
  }

  /** A reader of the raw blocks sees exactly the tree. */
  lemma LookupIsWalk(disk: Disk, lay: Layout, root: nat, lo: nat, hi: nat, q: Path)
    requires Represents(disk, lay, root, lo, hi)
    ensures Lookup(disk, root, q) == NodeEntry(lay, Walk(lay, root, q))
  {
    PathInoIsWalk(disk, lay, root, lo, hi, q);
    var i := Walk(lay, root, q);
    if i != 0 {
      EntryIsNode(disk, i, lay.nodes[i]);
    }
  }

  // ---- One path per inode ----

  lemma WalkDefined(lay: Layout, root: nat, q: Path)
    requires Linked(lay, root)
    ensures Walk(lay, root, q) != 0 ==> Walk(lay, root, q) in lay.nodes
    ensures q != [] && Walk(lay, root, q) != 0 ==>
              && Walk(lay, root, q) != root
              && Walk(lay, root, q[..|q| - 1]) != 0
              && Walk(lay, root, q) in lay.par
              && lay.par[Walk(lay, root, q)] == (Walk(lay, root, q[..|q| - 1]), q[|q| - 1])
  {
  }

  lemma WalkRoot(lay: Layout, root: nat)
    ensures Walk(lay, root, []) == root
  {
  }

  /** Two paths that reach the same inode are the same path. */
  lemma {:induction false} PathUnique(lay: Layout, root: nat, p: Path, q: Path)
    requires Linked(lay, root)
    requires Walk(lay, root, p) == Walk(lay, root, q) != 0
    ensures p == q
    decreases |p| + |q|
  {
    hide Linked, Walk;
    WalkRoot(lay, root);
    WalkDefined(lay, root, p);
    WalkDefined(lay, root, q);
    if p != [] && q != [] {
      PathUnique(lay, root, p[..|p| - 1], q[..|q| - 1]);
      assert p == p[..|p| - 1] + [p[|p| - 1]];
      assert q == q[..|q| - 1] + [q[|q| - 1]];
    }
  }

  // ---- No block serves twice ----

  /** The blocks an inode takes up: its own, then those of its data. */
  function Owned(disk: Disk, i: nat): seq<nat> { [i] + DirBlocks(InodeAt(disk, i)) }

  lemma {:induction false} OwnedBy(disk: Disk, lay: Layout, root: nat, lo: nat, hi: nat, i: nat, a: nat)
    requires Represents(disk, lay, root, lo, hi) && i in lay.nodes && a < |Owned(disk, i)|
    ensures Owned(disk, i)[a] in lay.own && lay.own[Owned(disk, i)[a]] == (i, a - 1)
  {
    hide Linked, NodeOk, Owned;
    BlocksOf(disk, i, lay.nodes[i]);
    if a > 0 { assert Owned(disk, i)[a] == lay.nodes[i].blocks[a - 1]; }
  }

  lemma {:induction false} BlocksOf(disk: Disk, i: nat, nd: Node)
    requires NodeOk(disk, i, nd)
    ensures Owned(disk, i) == [i] + nd.blocks
  {
    hide DirOk, StoredBytes;
    assert DirBlocks(InodeAt(disk, i)) == nd.blocks;
  }

  /** Whatever two paths lead to, the blocks it takes up are all different, and in range. */
  lemma {:induction false} PathsApart(disk: Disk, lay: Layout, root: nat, lo: nat, hi: nat, p: Path, q: Path, a: nat,
                                      b: nat)
    requires Represents(disk, lay, root, lo, hi) && PathIno(disk, root, p) != 0 && PathIno(disk, root, q) != 0
    requires a < |Owned(disk, PathIno(disk, root, p))| && b < |Owned(disk, PathIno(disk, root, q))|
    ensures lo <= Owned(disk, PathIno(disk, root, p))[a] < hi
    ensures Owned(disk, PathIno(disk, root, p))[a] == Owned(disk, PathIno(disk, root, q))[b] <==> p == q && a == b
  {
    PathInoIsWalk(disk, lay, root, lo, hi, p);
    PathInoIsWalk(disk, lay, root, lo, hi, q);
    OwnedBy(disk, lay, root, lo, hi, PathIno(disk, root, p), a);
    OwnedBy(disk, lay, root, lo, hi, PathIno(disk, root, q), b);
    if PathIno(disk, root, p) == PathIno(disk, root, q) {
      hide Separated;
      PathUnique(lay, root, p, q);
    }
  }
}

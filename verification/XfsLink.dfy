/** The two ways a new inode is entered in its parent, from block updates to tree. */
module XfsLink {
  import opened XfsCodec
  import opened XfsTree
  import opened XfsChange

  /** The record of a new file or directory whose first data block is x. */
  function NewInode(name: Name, flags: nat, x: nat): (r: Inode)
    ensures |r.name| == NAME_MAX && |r.dataBlocks| == MAX_BLOCKS
  {
    Inode(PadName(name) + [0], 0, flags, 1, [x] + seq(MAX_BLOCKS - 1, _ => 0), 0)
  }

  ghost function NewLeaf(isDir: bool, x: nat): Node {
    if isDir then DirNode([x], map[], {}) else FileNode([x], [])
  }

  lemma NewLeafOk(disk: Disk, c: nat, b: Block, name: Name, flags: nat, x: nat)
    requires flags == 0 || flags == 1
    requires x < 0x1_0000_0000
    requires Sector(disk, c) == EncodeInode(b, NewInode(name, flags, x))
    requires Sector(disk, x) == ZERO_BLOCK
    ensures NodeOk(disk, c, NewLeaf(flags == 1, x)) && Leaf(NewLeaf(flags == 1, x), x)
  {
    var i := NewInode(name, flags, x);
    InodeRoundTrip(b, i);
    hide EncodeInode, DecodeInode;
    assert i.dataBlocks[..1] == [x];
    EmptyDirOk(disk, x);
  }

  /** The parent's record after it gained block nb. */
  function Grown(i: Inode, nb: nat): (r: Inode)
    requires |i.dataBlocks| == MAX_BLOCKS && i.blockCount < MAX_BLOCKS
    ensures |r.name| == |i.name| && |r.dataBlocks| == MAX_BLOCKS
  {
    i.(dataBlocks := i.dataBlocks[i.blockCount := nb], blockCount := i.blockCount + 1)
  }

  lemma BlocksDistinct(lay: Layout, lo: nat, hi: nat, p: nat)
    requires Separated(lay, lo, hi) && p in lay.nodes
    ensures forall j, k :: 0 <= j < |lay.nodes[p].blocks| && 0 <= k < |lay.nodes[p].blocks| && j != k ==>
              lay.nodes[p].blocks[j] != lay.nodes[p].blocks[k]
    ensures forall j :: 0 <= j < |lay.nodes[p].blocks| ==>
              lay.nodes[p].blocks[j] != p && lo <= lay.nodes[p].blocks[j] < hi
              && lay.nodes[p].blocks[j] in lay.own
    ensures p in lay.own && lo <= p < hi
  {
    var bs: seq<nat> := lay.nodes[p].blocks;
    assert p in lay.own;
    forall j: nat, k: nat | j < |bs| && k < |bs| && j != k ensures bs[j] != bs[k] {
      assert lay.own[bs[j]] == (p, j);
      assert lay.own[bs[k]] == (p, k);
    }
    forall j | 0 <= j < |bs| ensures bs[j] != p && lo <= bs[j] < hi {
      assert lay.own[bs[j]] == (p, j);
    }
  }

  /** What AddDirent does with a free slot: entry n for c is in slot d of the parent's block k. */
  ghost predicate SlotTaken(d3: Disk, d4: Disk, bs: seq<nat>, k: nat, d: nat, n: Name, c: nat, flags: nat) {
    && k < |bs| && d < DENTS_PER_BLOCK && FullBefore(d3, bs, k, d)
    && var b := bs[k]; b < |d3| && DentIno(d3[b], d) == 0 && d4 == d3[b := PutDent(d3[b], d, n, c, flags)]
  }

  lemma NodeBySlot(d3: Disk, d4: Disk, lay: Layout, root: nat, lo: nat, hi: nat,
                   p: nat, n: Name, c: nat, k: nat, d: nat, flags: nat)
    requires Represents(d3, lay, root, lo, hi) && p in lay.nodes && lay.nodes[p].DirNode?
    requires GoodName(n) && 0 < c < 0x1_0000_0000 && SlotTaken(d3, d4, lay.nodes[p].blocks, k, d, n, c, flags)
    ensures NodeOk(d4, p, DirNode(lay.nodes[p].blocks, Entered(lay.nodes[p].ents, n, Slot(c, k, d)),
                                  Strayed(lay.nodes[p].ents, lay.nodes[p].lost, n, c)))
    ensures forall b :: b !in lay.nodes[p].blocks ==> Sector(d4, b) == Sector(d3, b)
  {
    hide Linked, DirOk, DentIno, PutDent, DecodeInode, FullBefore, Entered, Strayed;
    BlocksDistinct(lay, lo, hi, p);
    hide Separated;
    assert NodeOk(d3, p, lay.nodes[p]);
    DirAddSlot(d3, d4, lay.nodes[p].blocks, lay.nodes[p].ents, lay.nodes[p].lost, k, d, n, c, flags);
  }

  /** A free slot in one of the parent's blocks is taken. */
  lemma LinkBySlot(d3: Disk, d4: Disk, lay: Layout, root: nat, lo: nat, hi: nat,
                   p: nat, n: Name, c: nat, x: nat, nd: Node, k: nat, d: nat, flags: nat)
    requires Represents(d3, lay, root, lo, hi) && p in lay.nodes && lay.nodes[p].DirNode?
    requires n !in lay.nodes[p].ents && GoodName(n) && p < c < 0x1_0000_0000
    requires FreshFor(lay, c, x, [], lo, hi) && Leaf(nd, x) && NodeOk(d3, c, nd)
    requires SlotTaken(d3, d4, lay.nodes[p].blocks, k, d, n, c, flags)
    ensures Represents(d4, LinkChild(lay, p, n, Slot(c, k, d), nd, x, []), root, lo, hi)
  {
    hide Represents, NodeOk, DentIno, PutDent, FullBefore;
    var bs := lay.nodes[p].blocks;
    NodeBySlot(d3, d4, lay, root, lo, hi, p, n, c, k, d, flags);
    OwnBlocks(d3, lay, root, lo, hi, p);
    assert bs + [] == bs;
    NodeFrame(d3, d4, c, nd);
    LinkRepresents(d3, d4, lay, root, lo, hi, hi, p, n, Slot(c, k, d), nd, x, []);
  }

  lemma OwnBlocks(disk: Disk, lay: Layout, root: nat, lo: nat, hi: nat, p: nat)
    requires Represents(disk, lay, root, lo, hi) && p in lay.nodes
    ensures forall b :: b in lay.nodes[p].blocks ==> b in lay.own
    ensures p in lay.own && lo <= p < hi && hi <= |disk|
  {
    hide Linked, NodeOk;
    BlocksDistinct(lay, lo, hi, p);
  }

  /** A free slot is taken by an entry whose name is there already: the tree is as it was. */
  lemma ShadowBySlot(d3: Disk, d4: Disk, lay: Layout, root: nat, lo: nat, hi: nat,
                     p: nat, n: Name, c: nat, k: nat, d: nat, flags: nat)
    requires Represents(d3, lay, root, lo, hi) && p in lay.nodes && lay.nodes[p].DirNode?
    requires n in lay.nodes[p].ents && GoodName(n) && 0 < c < 0x1_0000_0000 && c !in lay.own && lo <= c < hi
    requires SlotTaken(d3, d4, lay.nodes[p].blocks, k, d, n, c, flags)
    ensures Represents(d4, Widened(lay, p, [], c), root, lo, hi)
  {
    hide Represents, NodeOk, DentIno, PutDent, FullBefore;
    NodeBySlot(d3, d4, lay, root, lo, hi, p, n, c, k, d, flags);
    OwnBlocks(d3, lay, root, lo, hi, p);
    assert lay.nodes[p].blocks + [] == lay.nodes[p].blocks;
    WidenedRepresents(d3, d4, lay, root, lo, hi, hi, p, [], c);
  }

  lemma GrownOk(b: Block, nd: Node, nd': Node, nb: nat)
    requires InodeOk(DecodeInode(b), nd) && |nd.blocks| < MAX_BLOCKS && nb < 0x1_0000_0000
    requires nd.DirNode? && nd'.DirNode? && nd'.blocks == nd.blocks + [nb]
    ensures InodeOk(DecodeInode(EncodeInode(b, Grown(DecodeInode(b), nb))), nd')
  {
    var i := DecodeInode(b);
    DecodedFits(b);
    assert Grown(i, nb).Fits();
    InodeRoundTrip(b, Grown(i, nb));
    hide EncodeInode, DecodeInode;
    assert Grown(i, nb).dataBlocks[..|nd'.blocks|] == nd'.blocks;
  }

  /** What AddDirent does when every block is full: directory p gains block nb holding the entry. */
  ghost predicate BlockTaken(d3: Disk, d4: Disk, bs: seq<nat>, lo: nat, p: nat, n: Name, c: nat, nb: nat, flags: nat) {
    && |bs| < MAX_BLOCKS && FullBefore(d3, bs, |bs|, 0) && InodeAt(d3, p).blockCount < MAX_BLOCKS
    && Sector(d4, nb) == PutDent(ZERO_BLOCK, 0, n, c, flags)
    && Sector(d4, p) == EncodeInode(Sector(d3, p), Grown(InodeAt(d3, p), nb))
    && forall b :: b >= lo && b != nb && b != p ==> Sector(d4, b) == Sector(d3, b)
  }

  lemma NodeByBlock(d3: Disk, d4: Disk, lay: Layout, root: nat, lo: nat, hi: nat,
                    p: nat, n: Name, c: nat, nb: nat, flags: nat)
    requires Represents(d3, lay, root, lo, hi) && p in lay.nodes && lay.nodes[p].DirNode?
    requires GoodName(n) && 0 < c < 0x1_0000_0000 && nb !in lay.own && nb < 0x1_0000_0000
    requires BlockTaken(d3, d4, lay.nodes[p].blocks, lo, p, n, c, nb, flags)
    ensures NodeOk(d4, p, DirNode(lay.nodes[p].blocks + [nb],
                                  Entered(lay.nodes[p].ents, n, Slot(c, |lay.nodes[p].blocks|, 0)),
                                  Strayed(lay.nodes[p].ents, lay.nodes[p].lost, n, c)))
    ensures forall b :: b in lay.own && b != p ==> Sector(d4, b) == Sector(d3, b)
  {
    hide Linked, DirOk, DentIno, PutDent, EncodeInode, DecodeInode, Grown, InodeOk, FullBefore, Entered, Strayed;
    var bs, ents, lost := lay.nodes[p].blocks, lay.nodes[p].ents, lay.nodes[p].lost;
    BlocksDistinct(lay, lo, hi, p);
    hide Separated;
    assert NodeOk(d3, p, lay.nodes[p]);
    DirAddBlock(d3, d4, bs, nb, ents, lost, n, c, flags);
    GrownOk(Sector(d3, p), lay.nodes[p],
            DirNode(bs + [nb], Entered(ents, n, Slot(c, |bs|, 0)), Strayed(ents, lost, n, c)), nb);
    OwnedAbove(d3, d4, lay, lo, hi, p, nb);
  }

  /** Every block of the parent is full, and it gains block nb holding the entry. */
  lemma LinkByBlock(d3: Disk, d4: Disk, lay: Layout, root: nat, lo: nat, hi: nat, hi': nat,
                    p: nat, n: Name, c: nat, x: nat, nd: Node, nb: nat, flags: nat)
    requires Represents(d3, lay, root, lo, hi) && hi <= hi' <= |d4| && p in lay.nodes && lay.nodes[p].DirNode?
    requires n !in lay.nodes[p].ents && GoodName(n) && p < c < 0x1_0000_0000
    requires FreshFor(lay, c, x, [nb], lo, hi') && Leaf(nd, x) && NodeOk(d3, c, nd) && nb < 0x1_0000_0000
    requires BlockTaken(d3, d4, lay.nodes[p].blocks, lo, p, n, c, nb, flags)
    ensures Represents(d4, LinkChild(lay, p, n, Slot(c, |lay.nodes[p].blocks|, 0), nd, x, [nb]), root, lo, hi')
  {
    hide Represents, NodeOk, DentIno, PutDent, EncodeInode, FullBefore, Grown;
    assert FreshFor(lay, c, x, [nb], lo, hi') ==> [nb][0] !in lay.own;
    NodeByBlock(d3, d4, lay, root, lo, hi, p, n, c, nb, flags);
    OwnBlocks(d3, lay, root, lo, hi, p);
    NodeFrame(d3, d4, c, nd);
    LinkRepresents(d3, d4, lay, root, lo, hi, hi', p, n, Slot(c, |lay.nodes[p].blocks|, 0), nd, x, [nb]);
  }

  /** The same for an entry whose name is there already: only the directory's block is new. */
  lemma ShadowByBlock(d3: Disk, d4: Disk, lay: Layout, root: nat, lo: nat, hi: nat, hi': nat,
                      p: nat, n: Name, c: nat, nb: nat, flags: nat)
    requires Represents(d3, lay, root, lo, hi) && hi <= hi' <= |d4| && p in lay.nodes && lay.nodes[p].DirNode?
    requires n in lay.nodes[p].ents && GoodName(n) && 0 < c < 0x1_0000_0000
    requires NewBlocks(lay, [nb], lo, hi') && nb < 0x1_0000_0000 && c !in lay.own && c != nb && lo <= c < hi'
    requires BlockTaken(d3, d4, lay.nodes[p].blocks, lo, p, n, c, nb, flags)
    ensures Represents(d4, Widened(lay, p, [nb], c), root, lo, hi')
  {
    hide Represents, NodeOk, DentIno, PutDent, EncodeInode, FullBefore, Grown;
    assert [nb][0] !in lay.own;
    NodeByBlock(d3, d4, lay, root, lo, hi, p, n, c, nb, flags);
    WidenedRepresents(d3, d4, lay, root, lo, hi, hi', p, [nb], c);
  }

  lemma OwnedAbove(d3: Disk, d4: Disk, lay: Layout, lo: nat, hi: nat, p: nat, nb: nat)
    requires Separated(lay, lo, hi) && nb !in lay.own
    requires forall b :: b >= lo && b != nb && b != p ==> Sector(d4, b) == Sector(d3, b)
    ensures forall b :: b in lay.own && b != p ==> Sector(d4, b) == Sector(d3, b)
  {
  }
}

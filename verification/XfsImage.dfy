/** The formatter itself: one image file, an allocation cursor, and the operations
    that format it, create directories and write files. */
module XfsImage {
  import opened Basics
  import opened XfsCodec
  import opened XfsTree
  import opened XfsChange
  import opened XfsBitmap
  import opened XfsPath
  import opened XfsLink
  import opened XfsNames

  const MAX_DISK := 0x1_0000_0000

  /** No proper prefix of the path is a regular file. */
  ghost predicate ThroughDirs(disk: Disk, root: nat, q: Path) {
    forall k :: 0 <= k < |q| && PathIno(disk, root, q[..k]) != 0 ==>
      InodeAt(disk, PathIno(disk, root, q[..k])).IsDir()
  }

  lemma {:induction false} PathInoStops(disk: Disk, root: nat, q: Path, k: nat)
    requires k <= |q| && PathIno(disk, root, q[..k]) == 0
    ensures PathIno(disk, root, q) == 0
    decreases |q| - k
  {
    if k < |q| {
      assert q[..k + 1][..k] == q[..k];
      PathInoStops(disk, root, q, k + 1);
    } else {
      assert q[..k] == q;
    }
  }

  /** The block that resolve_path goes to for a path. It takes files for directories, and their bytes for
      entries. */
  function RawIno(disk: Disk, root: nat, q: Path): nat {
    if q == [] then root else
    var d := RawIno(disk, root, q[..|q| - 1]);
    if d == 0 then 0 else FindInDir(disk, d, q[|q| - 1])
  }

  /** A record whose blocks can be read: it is on the disk, and so are they. */
  ghost predicate Readable(disk: Disk, i: nat) {
    && i < |disk| && InodeAt(disk, i).blockCount <= MAX_BLOCKS
    && forall k :: 0 <= k < InodeAt(disk, i).blockCount ==> InodeAt(disk, i).dataBlocks[k] < |disk|
  }

  ghost predicate ReadableWay(disk: Disk, root: nat, q: Path) {
    forall k :: 0 <= k < |q| && RawIno(disk, root, q[..k]) != 0 ==> Readable(disk, RawIno(disk, root, q[..k]))
  }

  /** What the walk from the root goes to for a string; 0 for nothing. */
  ghost function RawResolve(disk: Disk, root: nat, path: Bytes): nat {
    if path == [] || path[0] != SLASH then 0 else RawIno(disk, root, Components(path))
  }

  /** Where the way leads through directories only, that is what the path leads to. */
  lemma {:induction false} RawIs(disk: Disk, lay: Layout, root: nat, lo: nat, hi: nat, q: Path)
    requires Represents(disk, lay, root, lo, hi) && ThroughDirs(disk, root, q)
    ensures RawIno(disk, root, q) == PathIno(disk, root, q) && ReadableWay(disk, root, q)
  {
    hide Represents, FindInDir, Readable, InodeAt, ThroughDirs;
    if q != [] {
      var p := q[..|q| - 1];
      ThroughDirsPrefix(disk, root, q);
      RawIs(disk, lay, root, lo, hi, p);
      if PathIno(disk, root, p) != 0 {
        ThroughDirsAt(disk, root, q, |q| - 1);
        DirInodeInRange(disk, lay, root, lo, hi, p);
        PathInRange(disk, lay, root, lo, hi, p);
        RecordReadable(disk, PathIno(disk, root, p));
      }
      forall k | 0 <= k < |q| && RawIno(disk, root, q[..k]) != 0 ensures Readable(disk, RawIno(disk, root, q[..k])) {
        if k < |p| { assert q[..k] == p[..k]; }
      }
    }
  }

  lemma PathInRange(disk: Disk, lay: Layout, root: nat, lo: nat, hi: nat, q: Path)
    requires Represents(disk, lay, root, lo, hi) && PathIno(disk, root, q) != 0
    ensures PathIno(disk, root, q) < |disk|
  {
    hide Represents;
    PathInoIsWalk(disk, lay, root, lo, hi, q);
    NodeRecord(disk, lay, root, lo, hi, Walk(lay, root, q));
  }

  lemma RecordReadable(disk: Disk, i: nat)
    requires i < |disk| && InodeAt(disk, i).blockCount <= MAX_BLOCKS
    requires forall k :: 0 <= k < InodeAt(disk, i).blockCount ==> InodeAt(disk, i).dataBlocks[k] < |disk|
    ensures Readable(disk, i)
  {
    hide InodeAt;
  }

  /** The same for strings. */
  lemma ResolveIs(disk: Disk, lay: Layout, root: nat, lo: nat, hi: nat, path: Bytes)
    requires Represents(disk, lay, root, lo, hi)
    requires path != [] && path[0] == SLASH ==> ThroughDirs(disk, root, Components(path))
    ensures RawResolve(disk, root, path) == Resolve(disk, root, path)
    ensures path != [] && path[0] == SLASH ==> ReadableWay(disk, root, Components(path))
    ensures Resolve(disk, root, path) < |disk| || Resolve(disk, root, path) == 0
  {
    hide Represents, Components, PathIno, RawIno, ThroughDirs, ReadableWay;
    if path != [] && path[0] == SLASH {
      RawIs(disk, lay, root, lo, hi, Components(path));
      if PathIno(disk, root, Components(path)) != 0 { PathInRange(disk, lay, root, lo, hi, Components(path)); }
    }
  }

  ghost predicate SamePaths(disk: Disk, disk': Disk, root: nat) {
    forall r :: Lookup(disk', root, r) == Lookup(disk, root, r)
  }

  /** Path q now shows e, and every other path, present or absent, is as before. */
  ghost predicate SetsPath(disk: Disk, disk': Disk, root: nat, q: Path, e: Entry) {
    forall r :: Lookup(disk', root, r) == if r == q then e else Lookup(disk, root, r)
  }

  /** Two images of the same tree look the same at every path. */
  lemma SameTree(disk: Disk, disk': Disk, lay: Layout, root: nat, lo: nat, hi: nat, hi': nat)
    requires Represents(disk, lay, root, lo, hi) && Represents(disk', lay, root, lo, hi')
    ensures SamePaths(disk, disk', root)
  {
    hide Represents, Lookup;
    forall r ensures Lookup(disk', root, r) == Lookup(disk, root, r) {
      LookupIsWalk(disk, lay, root, lo, hi, r);
      LookupIsWalk(disk', lay, root, lo, hi', r);
    }
  }

  predicate FreeSlotIn(b: Block, d: nat)
    requires d <= DENTS_PER_BLOCK
    decreases DENTS_PER_BLOCK - d
  {
    d < DENTS_PER_BLOCK && (DentIno(b, d) == 0 || FreeSlotIn(b, d + 1))
  }

  predicate HasFreeSlot(disk: Disk, bs: seq<nat>) {
    bs != [] && (FreeSlotIn(Sector(disk, bs[0]), 0) || HasFreeSlot(disk, bs[1..]))
  }

  /** What the walk from the root finds for a string; 0 for nothing. */
  ghost function Resolve(disk: Disk, root: nat, path: Bytes): nat {
    if path == [] || path[0] != SLASH then 0 else PathIno(disk, root, Components(path))
  }

  /** The directory that an entry for the string goes into. */
  ghost function ParentIno(disk: Disk, root: nat, path: Bytes): nat
    requires path != []
  {
    if LastSlashAt(path) == 0 then root else Resolve(disk, root, ParentString(path))
  }

  /** A C string; neither the way to what it names nor the way to what it would create leads through a
      regular file. */
  ghost predicate Passable(disk: Disk, root: nat, path: Bytes) {
    && path != [] && 0 !in path
    && (path[0] == SLASH ==> ThroughDirs(disk, root, Components(path)) && ThroughDirs(disk, root, Target(path)))
  }

  /** The string names nothing, and yet the entry it would create is there. */
  ghost predicate Shadowed(disk: Disk, root: nat, path: Bytes)
    requires path != []
  {
    Resolve(disk, root, path) == 0 && PathIno(disk, root, Target(path)) != 0
  }

  /** Creation needs a name, an existing parent, an inode and a data block, and a slot for
      the entry: a free one, or one more block for a directory below its limit. */
  ghost predicate CanCreate(disk: Disk, total: nat, nf: nat, root: nat, path: Bytes)
    requires path != []
  {
    && BaseName(path) != [] && ParentIno(disk, root, path) != 0 && nf + CreateCost(disk, root, path) <= total
    && (ParentHasSlot(disk, root, path) || |DirBlocks(InodeAt(disk, ParentIno(disk, root, path)))| < MAX_BLOCKS)
  }

  ghost predicate ParentHasSlot(disk: Disk, root: nat, path: Bytes)
    requires path != []
  {
    HasFreeSlot(disk, DirBlocks(InodeAt(disk, ParentIno(disk, root, path))))
  }

  ghost function CreateCost(disk: Disk, root: nat, path: Bytes): nat
    requires path != []
  {
    if ParentHasSlot(disk, root, path) then 2 else 3
  }

  function BlocksFor(size: nat): nat {
    var n := (size + BLOCK_SIZE - 1) / BLOCK_SIZE;
    if n == 0 then 1 else n
  }

  ghost predicate CanFill(disk: Disk, total: nat, nf: nat, i: nat, size: nat) {
    BlocksFor(size) <= MAX_BLOCKS && nf + Shortfall(FileBlocksAt(disk, i), BlocksFor(size)) <= total
  }

  /** Exactly when a write succeeds: the size fits 900 blocks, the path exists or can be
      created, and enough blocks are free for the entry and the data. */
  ghost predicate CanWrite(disk: Disk, total: nat, nf: nat, root: nat, path: Bytes, size: nat)
    requires path != []
  {
    && BlocksFor(size) <= MAX_BLOCKS
    && if Resolve(disk, root, path) != 0
       then nf + Shortfall(FileBlocksAt(disk, Resolve(disk, root, path)), BlocksFor(size)) <= total
       else CanCreate(disk, total, nf, root, path)
            && nf + CreateCost(disk, root, path) + BlocksFor(size) - 1 <= total
  }

  ghost function FileBlocksAt(disk: Disk, i: nat): nat { |DirBlocks(InodeAt(disk, i))| }

  function Shortfall(have: nat, needed: nat): nat {
    if needed <= have then 0 else needed - have
  }

  /** The record after n more blocks, taken in order from nf. */
  function GrownBy(i: Inode, nf: nat, n: nat): (r: Inode)
    requires |i.dataBlocks| == MAX_BLOCKS && i.blockCount + n <= MAX_BLOCKS
    ensures |r.dataBlocks| == MAX_BLOCKS && r.blockCount == i.blockCount + n && |r.name| == |i.name|
  {
    if n == 0 then i else Grown(GrownBy(i, nf, n - 1), nf + n - 1)
  }

  ghost function BlockRange(nf: nat, n: nat): (r: seq<nat>)
    ensures |r| == n && forall j :: 0 <= j < n ==> r[j] == nf + j
  {
    seq(n, j => nf + j)
  }

  lemma {:induction false} GrownByBlocks(i: Inode, nf: nat, n: nat)
    requires |i.dataBlocks| == MAX_BLOCKS && i.blockCount + n <= MAX_BLOCKS
    ensures var r := GrownBy(i, nf, n);
            && r.dataBlocks[..i.blockCount + n] == i.dataBlocks[..i.blockCount] + BlockRange(nf, n)
            && r.name == i.name && r.size == i.size && r.flags == i.flags && r.checksum == i.checksum
            && (i.Fits() && nf + n <= MAX_DISK ==> r.Fits())
  {
    if n > 0 {
      GrownByBlocks(i, nf, n - 1);
      assert BlockRange(nf, n) == BlockRange(nf, n - 1) + [nf + n - 1];
    }
  }

  function StoredAt(disk: Disk, bs: seq<nat>, j: nat): byte
    requires j / BLOCK_SIZE < |bs|
  {
    Sector(disk, bs[j / BLOCK_SIZE])[j % BLOCK_SIZE]
  }

  /** A chunk written into its block is stored there, and what was stored before still is. */
  lemma {:induction false} ChunkStored(d0: Disk, d1: Disk, bs: seq<nat>, data: Bytes, done: nat, chunk: nat, s0: Block,
                                       s1: Block)
    requires done + chunk <= |data| <= BLOCK_SIZE * |bs| && chunk <= BLOCK_SIZE && done % BLOCK_SIZE == 0
    requires done < |data|
    requires forall k :: 0 <= k < |bs| ==> bs[k] < |d0|
    requires forall j, k :: 0 <= j < |bs| && 0 <= k < |bs| && j != k ==> bs[j] != bs[k]
    requires s1 == data[done..done + chunk] + s0[chunk..] && d1 == d0[bs[done / BLOCK_SIZE] := s1]
    requires forall j :: 0 <= j < done ==> StoredAt(d0, bs, j) == data[j]
    ensures forall j :: 0 <= j < done + chunk ==> StoredAt(d1, bs, j) == data[j]
  {
    var idx := done / BLOCK_SIZE;
    forall j | 0 <= j < done + chunk ensures StoredAt(d1, bs, j) == data[j] {
      if j < done {
        assert StoredAt(d0, bs, j) == data[j];
        assert j / BLOCK_SIZE < idx;
      } else {
        assert j / BLOCK_SIZE == idx && j % BLOCK_SIZE == j - done;
      }
    }
  }

  lemma {:induction false} AllStored(disk: Disk, bs: seq<nat>, data: Bytes)
    requires |data| <= BLOCK_SIZE * |bs| && forall j :: 0 <= j < |data| ==> StoredAt(disk, bs, j) == data[j]
    ensures StoredBytes(disk, bs, |data|) == data
  {
    assert forall j :: 0 <= j < |data| ==> StoredBytes(disk, bs, |data|)[j] == StoredAt(disk, bs, j);
  }

  lemma {:induction false} FreeSlotFrame(disk: Disk, disk': Disk, bs: seq<nat>)
    requires SameAt(disk, disk', bs)
    ensures HasFreeSlot(disk', bs) == HasFreeSlot(disk, bs)
  {
    if bs != [] {
      assert SameAt(disk, disk', bs[1..]) by {
        assert forall k :: 0 <= k < |bs| - 1 ==> bs[1..][k] == bs[k + 1];
      }
      FreeSlotFrame(disk, disk', bs[1..]);
    }
  }

  class Image {
    var disk: Disk
    var total: nat
    var bitmapBlocks: nat
    var dataStart: nat
    var rootBlock: nat
    var nextFree: nat
    ghost var lay: Layout

    ghost predicate Geometry()
      reads this
    {
      && 4 <= total < MAX_DISK && |disk| == total
      && bitmapBlocks == BitmapBlocks(total) && dataStart == DataStart(total)
      && rootBlock == dataStart
      && dataStart + 2 <= nextFree <= total
      && Exact(disk, total, nextFree) && Described(disk[0], total)
    }

    ghost predicate Valid()
      reads this
    {
      Geometry() && Represents(disk, lay, rootBlock, dataStart, nextFree)
    }

    /** In a valid image no block serves two purposes, and each that serves one is marked in the bitmap. */
    lemma {:induction false} BlocksApart(p: Path, q: Path, a: nat, b: nat)
      requires Valid() && PathIno(disk, rootBlock, p) != 0 && PathIno(disk, rootBlock, q) != 0
      requires a < |Owned(disk, PathIno(disk, rootBlock, p))| && b < |Owned(disk, PathIno(disk, rootBlock, q))|
      ensures var x, y := Owned(disk, PathIno(disk, rootBlock, p))[a], Owned(disk, PathIno(disk, rootBlock, q))[b];
              dataStart <= x < total && Marked(disk, x) && (x == y <==> p == q && a == b)
    {
      PathsApart(disk, lay, rootBlock, dataStart, nextFree, p, q, a, b);
      hide Marked, Represents, Owned, PathIno;
    }

    // ---- Strings that name nothing, and whose entry is there ----

    /** A string of well-formed components is never shadowed. */
    lemma {:induction false} PlainNotShadowed(q: Path)
      requires q != [] && GoodPath(q) && |PathString(q[..|q| - 1], false)| < PARENT_MAX
      ensures !Shadowed(disk, rootBlock, PathString(q, false))
    {
      hide Components, Target, PathString, PathIno;
      TargetOfString(q);
    }

    /** Where something is at p/n, the string p//n is shadowed, whatever the image. */
    lemma {:induction false} DoubledSlashShadowed(p: Path, n: Name)
      requires Valid() && GoodPath(p) && GoodComponent(n) && |PathString(p, true)| < PARENT_MAX
      requires PathIno(disk, rootBlock, p + [n]) != 0
      ensures var path := PathString(p, true) + [SLASH] + n;
              Passable(disk, rootBlock, path) && Shadowed(disk, rootBlock, path)
    {
      hide Components, Target, PathIno, Represents, ThroughDirs, PathString;
      DoubledSlash(p, n);
      NoNul(p, n);
      EmptyLeadsNowhere(disk, lay, rootBlock, dataStart, nextFree, p + [[], n], |p|);
      LeadsThroughDirs(disk, rootBlock, p + [n]);
      SkipsEmpty(disk, lay, rootBlock, dataStart, nextFree, p, n);
    }

    /** A name that is too long is shadowed as soon as its first 63 bytes name a directory, unless that
        has in it what the rest of the name spells. */
    lemma {:induction false} LongNameShadowed(n: Bytes)
      requires Valid() && |n| > NAME_MAX - 1 && SLASH !in n && PathIno(disk, rootBlock, [Cut(n)]) != 0
      ensures Shadowed(disk, rootBlock, [SLASH] + n)
              <==> PathIno(disk, rootBlock, [Cut(n)] + Split(n[NAME_MAX - 1..])) == 0
    {
      hide Components, Target, PathIno;
      LongName(n);
    }

    // ---- Format ----

    /** Format an image: the root directory exists and is empty, and nothing else does. */
    constructor Format(totalBlocks: nat)
      requires 4 <= totalBlocks < MAX_DISK
      ensures Valid() && total == totalBlocks && nextFree == DataStart(total) + 2
      ensures forall r :: Lookup(disk, rootBlock, r) == if r == [] then IsDir(rootBlock) else Absent
      ensures UniqueNames(disk, rootBlock)
      ensures SuperOk(disk[0], total, total - nextFree)
    {
      hide Exact, Marked, Represents, Lookup, EncodeInode, SuperOk, SuperBlock, NewInode, RootLayout, BitmapBlocks;
      RegionsFit(totalBlocks);
      total := totalBlocks;
      bitmapBlocks := BitmapBlocks(totalBlocks);
      dataStart := DataStart(totalBlocks);
      rootBlock := DataStart(totalBlocks);
      nextFree := DataStart(totalBlocks) + 2;
      disk := seq(totalBlocks, _ => ZERO_BLOCK);
      lay := RootLayout(DataStart(totalBlocks));
      new;
      disk := disk[0 := SuperBlock(total, total - nextFree, rootBlock, bitmapBlocks, dataStart)];
      BlankBitmap(disk, total);
      SuperBlockOk(total, total - nextFree, rootBlock, bitmapBlocks, dataStart);
      IsDescribed(disk[0], total, total - nextFree);
      MarkReserved();
      ghost var d1 := disk;
      disk := disk[rootBlock := EncodeInode(ZERO_BLOCK, NewInode([SLASH], 1, rootBlock + 1))];
      disk := disk[rootBlock + 1 := ZERO_BLOCK];
      ExactFrame(d1, disk, total, nextFree);
      FreshRoot(disk, rootBlock);
      UniqueIs(disk, lay, rootBlock, dataStart, nextFree);
    }

    method MarkReserved()
      requires |disk| == total && dataStart == DataStart(total) && dataStart + 2 <= nextFree <= total
      requires Exact(disk, total, 0)
      modifies this`disk
      ensures |disk| == total && Exact(disk, total, nextFree)
      ensures Sector(disk, 0) == Sector(old(disk), 0)
      ensures forall c :: dataStart <= c ==> Sector(disk, c) == Sector(old(disk), c)
    {
      hide Exact, Marked;
      var b := 0;
      while b < nextFree
        invariant b <= nextFree && |disk| == total
        invariant Exact(disk, total, b)
        invariant Sector(disk, 0) == Sector(old(disk), 0)
        invariant forall c :: dataStart <= c ==> Sector(disk, c) == Sector(old(disk), c)
      {
        MarkNext(disk, total, b);
        BitmapInRange(total, b);
        BitmapSet(b, true);
        b := b + 1;
      }
    }

    /** Recount the blocks in use and store the free count in the superblock. */
    method StoreFreeCount() returns (used: nat)
      requires Valid()
      modifies this`disk
      ensures Valid()
      ensures used == nextFree && SuperOk(disk[0], total, total - nextFree)
      ensures SamePaths(old(disk), disk, rootBlock)
      ensures UniqueNames(disk, rootBlock) <==> UniqueNames(old(disk), rootBlock)
    {
      hide Represents, Described, SamePaths, Marked, SuperOk, UniqueNames;
      UniqueIs(disk, lay, rootBlock, dataStart, nextFree);
      used := 0;
      var b := 0;
      while b < total
        invariant disk == old(disk)
        invariant b <= total && used == if b <= nextFree then b else nextFree
      {
        BitmapInRange(total, b);
        var m := BitmapGet(b);
        if m { used := used + 1; }
        b := b + 1;
      }
      ghost var d0 := disk;
      var sb := disk[0];
      disk := disk[0 := sb[..16] + Le(total - used, 8) + sb[24..]];
      FreeCountStored(sb, total, total - used);
      IsDescribed(disk[0], total, total - used);
      ExactFrame(d0, disk, total, nextFree);
      RangeOf(d0, lay, rootBlock, dataStart, nextFree);
      TreeFrame(d0, disk, lay, rootBlock, dataStart, nextFree, nextFree);
      SameTree(d0, disk, lay, rootBlock, dataStart, nextFree, nextFree);
      UniqueIs(disk, lay, rootBlock, dataStart, nextFree);
    }

    // ---- Bitmap and allocation ----

    method BitmapSet(block: nat, used: bool)
      requires BitmapBlock(block) < |disk|
      modifies this`disk
      ensures disk == SetMark(old(disk), block, used)
    {
      var at := block / 8;
      var buf := disk[1 + at / BLOCK_SIZE];
      buf := buf[at % BLOCK_SIZE := MarkByte(buf[at % BLOCK_SIZE], block % 8, used)];
      disk := disk[1 + at / BLOCK_SIZE := buf];
    }

    method BitmapGet(block: nat) returns (used: bool)
      requires BitmapBlock(block) < |disk|
      ensures used == Marked(disk, block)
    {
      var at := block / 8;
      used := Bit(disk[1 + at / BLOCK_SIZE][at % BLOCK_SIZE], block % 8);
    }

    /** The first unmarked block at or after the cursor, or 0 when there is none. */
    method AllocBlock() returns (b: nat)
      requires |disk| == total && DataStart(total) <= total && 0 < nextFree
      modifies this`disk, this`nextFree
      ensures b == 0 ==> disk == old(disk) && nextFree == old(nextFree)
                         && forall c :: old(nextFree) <= c < total ==> Marked(disk, c)
      ensures b != 0 ==> && old(nextFree) <= b < total && !Marked(old(disk), b)
                         && (forall c :: old(nextFree) <= c < b ==> Marked(old(disk), c))
                         && BitmapBlock(b) < |old(disk)|
                         && disk == SetMark(old(disk), b, true) && nextFree == b + 1
    {
      b := nextFree;
      while b < total
        invariant 0 < nextFree <= b && disk == old(disk) && nextFree == old(nextFree)
        invariant forall c :: nextFree <= c < b ==> Marked(disk, c)
      {
        BitmapInRange(total, b);
        var used := BitmapGet(b);
        if !used {
          BitmapSet(b, true);
          nextFree := b + 1;
          return;
        }
        b := b + 1;
      }
      b := 0;
    }

    /** Allocation in a valid image: the cursor's block while there is one, else
        failure with the disk full; the tree is untouched. */
    method AllocNext() returns (b: nat)
      requires Valid()
      modifies this`disk, this`nextFree
      ensures Valid()
      ensures old(nextFree) < total ==> b == old(nextFree) && nextFree == b + 1
      ensures old(nextFree) == total ==> b == 0 && disk == old(disk) && nextFree == total
      ensures b == 0 ==> forall c :: 0 <= c < total ==> Marked(disk, c)
      ensures forall c :: c >= dataStart ==> Sector(disk, c) == Sector(old(disk), c)
    {
      hide Represents, Described, Marked;
      ghost var d0, n0 := disk, nextFree;
      b := AllocBlock();
      if n0 < total {
        MarkNext(d0, total, n0);
        assert !Marked(d0, n0);
        RepresentsFrame(d0, disk, lay, rootBlock, dataStart, n0, nextFree);
      }
    }

    lemma RepresentsFrame(d0: Disk, d1: Disk, lay: Layout, root: nat, lo: nat, hi: nat, hi': nat)
      requires Represents(d0, lay, root, lo, hi) && hi <= hi' <= |d1|
      requires forall c :: c >= lo ==> Sector(d1, c) == Sector(d0, c)
      ensures Represents(d1, lay, root, lo, hi')
    {
      OwnedRange(lay, lo, hi);
      TreeFrame(d0, d1, lay, root, lo, hi, hi');
    }

    lemma OwnedRange(lay: Layout, lo: nat, hi: nat)
      requires Separated(lay, lo, hi)
      ensures forall b :: b in lay.own ==> lo <= b < hi
    {
    }

    // ---- Path resolution ----

    method FindInSector(sector: Block, name: Name) returns (next: nat)
      ensures next == FindInBlock(sector, name, 0)
    {
      hide DentIno, DentName;
      next := 0;
      var d := 0;
      while d < DENTS_PER_BLOCK && next == 0
        invariant 0 <= d <= DENTS_PER_BLOCK
        invariant FindInBlock(sector, name, 0)
               == if next != 0 then next else FindInBlock(sector, name, d)
      {
        if DentIno(sector, d) != 0 && DentName(sector, d) == name {
          next := DentIno(sector, d);
        }
        d := d + 1;
      }
    }

    method FindDirent(dir: Inode, name: Name) returns (next: nat)
      requires |dir.dataBlocks| == MAX_BLOCKS && dir.blockCount <= MAX_BLOCKS
      requires forall k :: 0 <= k < dir.blockCount ==> dir.dataBlocks[k] < |disk|
      ensures next == FindInBlocks(disk, dir.dataBlocks[..dir.blockCount], name)
    {
      hide FindInBlock;
      next := 0;
      ghost var bs := dir.dataBlocks[..dir.blockCount];
      var db := 0;
      assert bs[0..] == bs;
      while db < dir.blockCount && next == 0
        invariant 0 <= db <= |bs|
        invariant FindInBlocks(disk, bs, name)
               == if next != 0 then next else FindInBlocks(disk, bs[db..], name)
      {
        var b := dir.dataBlocks[db];
        assert bs[db..][0] == b && bs[db..][1..] == bs[db + 1..];
        if b != 0 {
          next := FindInSector(disk[b], name);
        }
        db := db + 1;
      }
    }

    method ReadComponent(path: Bytes, p: nat) returns (buf: Bytes)
      requires p <= |path|
      ensures buf == path[p..][..ComponentLen(path[p..], 0)]
    {
      var i := 0;
      buf := [];
      ghost var s := path[p..];
      while p + i < |path| && path[p + i] != SLASH && i < NAME_MAX - 1
        invariant i <= |s| && i <= NAME_MAX - 1 && buf == s[..i]
        invariant ComponentLen(s, 0) == ComponentLen(s, i)
      {
        buf := buf + [path[p + i]];
        i := i + 1;
      }
    }

    /** Walking the string from the root goes to the block its components denote, whatever is on the way,
        as long as the records on the way can be read at all. */
    method ResolvePath(path: Bytes) returns (ino: nat, out: Inode)
      requires Valid()
      requires path != [] && path[0] == SLASH ==> ReadableWay(disk, rootBlock, Components(path))
      ensures ino == RawResolve(disk, rootBlock, path)
      ensures 0 < ino < |disk| ==> out == InodeAt(disk, ino)
    {
      hide Represents, Described, Exact, RawIno, Split, ReadableWay, InodeAt, FindInBlocks, ComponentLen;
      out := InodeAt(disk, rootBlock);
      if path == [] || path[0] != SLASH { return 0, out; }
      ino := rootBlock;
      RawRoot(disk, rootBlock);
      RootIsDir(disk, lay, rootBlock, dataStart, nextFree);
      if !out.IsDir() {
        assert false;  // a valid image has a directory at its root
      }
      if |path| == 1 { return; }
      var p := 1;
      ghost var k, q := 0, Components(path);
      assert q[..0] == [] && q[0..] == q;
      while true
        invariant 0 <= k && p < |path| && k <= |q| && q[k..] == Split(path[p..])
        invariant ino == RawIno(disk, rootBlock, q[..k]) != 0
        invariant out == InodeAt(disk, ino)
        decreases |path| - p
      {
        NextComponent(path, p, q, k);
        var buf := ReadComponent(path, p);
        ReadableAt(disk, rootBlock, q, k);
        var next := FindDirent(out, buf);
        RawStep(disk, rootBlock, q, k);
        if next == 0 {
          RawStops(disk, rootBlock, q, k + 1);
          return 0, out;
        }
        ino := next;
        out := InodeAt(disk, ino);
        p := p + |buf|;
        if p < |path| && path[p] == SLASH { p := p + 1; }
        if p == |path| {
          assert q[..k + 1] == q;
          return;
        }
        k := k + 1;
      }
    }

    // ---- Creating an entry ----

    method FindFreeInSector(sector: Block) returns (found: bool, d: nat)
      ensures found == FreeSlotIn(sector, 0)
      ensures found ==> d < DENTS_PER_BLOCK && DentIno(sector, d) == 0
      ensures forall e :: 0 <= e < (if found then d else DENTS_PER_BLOCK) ==> DentIno(sector, e) != 0
    {
      hide DentIno;
      d := 0;
      while d < DENTS_PER_BLOCK
        invariant d <= DENTS_PER_BLOCK
        invariant FreeSlotIn(sector, 0) == FreeSlotIn(sector, d)
        invariant forall e :: 0 <= e < d ==> DentIno(sector, e) != 0
      {
        if DentIno(sector, d) == 0 { return true, d; }
        d := d + 1;
      }
      return false, d;
    }

    method FindFreeSlot(dir: Inode) returns (found: bool, db: nat, d: nat)
      requires |dir.dataBlocks| == MAX_BLOCKS && dir.blockCount <= MAX_BLOCKS
      requires forall k :: 0 <= k < dir.blockCount ==> 0 < dir.dataBlocks[k] < |disk|
      ensures found == HasFreeSlot(disk, dir.dataBlocks[..dir.blockCount])
      ensures found ==> && db < dir.blockCount && d < DENTS_PER_BLOCK
                        && DentIno(disk[dir.dataBlocks[db]], d) == 0
      ensures FullBefore(disk, dir.dataBlocks[..dir.blockCount], if found then db else dir.blockCount,
                         if found then d else 0)
    {
      hide FreeSlotIn, DentIno;
      db, d := 0, 0;
      ghost var bs := dir.dataBlocks[..dir.blockCount];
      assert bs[0..] == bs;
      while db < dir.blockCount
        invariant db <= |bs|
        invariant HasFreeSlot(disk, bs) == HasFreeSlot(disk, bs[db..])
        invariant FullBefore(disk, bs, db, 0)
      {
        var b := dir.dataBlocks[db];
        assert bs[db..][0] == b && bs[db..][1..] == bs[db + 1..];
        found, d := FindFreeInSector(disk[b]);
        if found { return; }
        db := db + 1;
      }
      found := false;
    }

    /** Enter `ino` under `name` in directory p: in its first free slot, or in a new block. */
    method AddDirent(p: nat, name: Name, ino: nat, flags: nat)
      returns (ok: bool, ghost k: nat, ghost d: nat, ghost more: seq<nat>)
      requires Valid() && p in lay.nodes && lay.nodes[p].DirNode?
      modifies this`disk, this`nextFree
      ensures Geometry()
      ensures var bs := lay.nodes[p].blocks;
              && ok == (HasFreeSlot(old(disk), bs) || (|bs| < MAX_BLOCKS && old(nextFree) < total))
              && (ok ==> (more == [] <==> HasFreeSlot(old(disk), bs)))
      ensures !ok ==> disk == old(disk) && nextFree == old(nextFree)
      ensures ok && more == [] ==>
                && SlotTaken(old(disk), disk, lay.nodes[p].blocks, k, d, name, ino, flags) && nextFree == old(nextFree)
      ensures ok && more != [] ==>
                && BlockTaken(old(disk), disk, lay.nodes[p].blocks, dataStart, p, name, ino, old(nextFree), flags)
                && more == [old(nextFree)] && nextFree == old(nextFree) + 1
    {
      hide Represents, Described, Exact, DentIno, PutDent, EncodeInode, InodeAt, HasFreeSlot, Grown, FullBefore;
      var pinode := InodeAt(disk, p);
      ghost var bs := lay.nodes[p].blocks;
      NodeRecord(disk, lay, rootBlock, dataStart, nextFree, p);
      var db, slot;
      ok, db, slot := FindFreeSlot(pinode);
      k, d, more := db, slot, [];
      ghost var d0 := disk;
      if ok {
        var b := pinode.dataBlocks[db];
        assert b == bs[db];
        disk := disk[b := PutDent(disk[b], slot, name, ino, flags)];
        ExactFrame(d0, disk, total, nextFree);
        return;
      }
      if pinode.blockCount >= MAX_BLOCKS { return; }
      var nb := AllocNext();
      if nb == 0 { return; }
      ghost var d1 := disk;
      assert disk[p] == Sector(d0, p);
      disk := disk[nb := PutDent(ZERO_BLOCK, 0, name, ino, flags)];
      disk := disk[p := EncodeInode(disk[p], Grown(pinode, nb))];
      ExactFrame(d1, disk, total, nextFree);
      ok := true;
      more := [nb];
    }

    method LastSlash(path: Bytes) returns (at: nat)
      requires path != []
      ensures at == LastSlashAt(path)
    {
      at := 0;
      var p := 0;
      while p < |path|
        invariant p <= |path| && at < |path| && (at > 0 ==> path[at] == SLASH)
        invariant forall j :: at < j < p ==> path[j] != SLASH
      {
        if path[p] == SLASH { at := p; }
        p := p + 1;
      }
    }

    /** The inode of the directory a new entry goes into, and the entry's name. */
    method ResolveParent(path: Bytes) returns (parent: nat, name: Bytes)
      requires Valid() && Passable(disk, rootBlock, path)
      ensures parent == ParentIno(disk, rootBlock, path) && name == BaseName(path)
    {
      hide Represents, Described, Exact, PathIno, ThroughDirs, Components, LastSlashAt;
      var at := LastSlash(path);
      name := path[at + 1..];
      if at == 0 {
        parent := rootBlock;
      } else {
        var out;
        if path[0] == SLASH { ThroughDirsPrefix(disk, rootBlock, Target(path)); }
        ResolveIs(disk, lay, rootBlock, dataStart, nextFree, path[..Min(at, PARENT_MAX - 1)]);
        parent, out := ResolvePath(path[..Min(at, PARENT_MAX - 1)]);
      }
    }

    method InitChild(c: nat, x: nat, name: Name, flags: nat)
      requires Valid() && c !in lay.own && x !in lay.own && c != x
      requires dataStart <= c < total && dataStart <= x < total && flags <= 1
      modifies this`disk
      ensures Valid()
      ensures NodeOk(disk, c, NewLeaf(flags == 1, x)) && Leaf(NewLeaf(flags == 1, x), x)
      ensures forall b :: b != c && b != x ==> Sector(disk, b) == Sector(old(disk), b)
    {
      hide Represents, Described, Exact, NodeOk, EncodeInode;
      ghost var d0 := disk;
      disk := disk[c := EncodeInode(disk[c], NewInode(name, flags, x))];
      disk := disk[x := ZERO_BLOCK];
      ExactFrame(d0, disk, total, nextFree);
      NewLeafOk(disk, c, d0[c], name, flags, x);
      TreeFrame(d0, disk, lay, rootBlock, dataStart, nextFree, nextFree) by {
        assert Represents(d0, lay, rootBlock, dataStart, nextFree);
        RangeOf(d0, lay, rootBlock, dataStart, nextFree);
      }
    }

    /** Enter a prepared leaf under its parent: one new path if the name is new there, else no change
        that a reader could see. */
    method EnterChild(parent: nat, name: Name, c: nat, x: nat, flags: nat, ghost pp: Path) returns (ok: bool)
      requires Valid() && flags <= 1
      requires parent in lay.nodes && lay.nodes[parent].DirNode? && Walk(lay, rootBlock, pp) == parent
      requires GoodName(name) && FreshFor(lay, c, x, [], dataStart, nextFree) && parent < c
      requires NodeOk(disk, c, NewLeaf(flags == 1, x)) && Leaf(NewLeaf(flags == 1, x), x)
      modifies this`disk, this`nextFree, this`lay
      ensures Valid()
      ensures var bs := old(lay).nodes[parent].blocks;
              ok == (HasFreeSlot(old(disk), bs) || (|bs| < MAX_BLOCKS && old(nextFree) < total))
      ensures !ok ==> disk == old(disk) && nextFree == old(nextFree)
      ensures ok ==> NodeOk(disk, c, NewLeaf(flags == 1, x))
      ensures ok && name !in old(lay).nodes[parent].ents ==>
                SetsPath(old(disk), disk, rootBlock, pp + [name], if flags == 1 then IsDir(c) else IsFile(c, []))
      ensures ok && name in old(lay).nodes[parent].ents ==>
                SamePaths(old(disk), disk, rootBlock) && Loose(lay, c, x, dataStart, nextFree)
      ensures ok ==> nextFree == old(nextFree)
                       + if HasFreeSlot(old(disk), old(lay).nodes[parent].blocks) then 0 else 1
      ensures NoneLost(lay) <==> NoneLost(old(lay)) && !(ok && name in old(lay).nodes[parent].ents)
    {
      hide Represents, Described, Exact, NodeOk, HasFreeSlot, Lookup, DentIno, PutDent, EncodeInode, Grown, InodeAt,
           Leaf, SetsPath, SamePaths, Walk, SlotTaken, BlockTaken, NoneLost;
      ghost var d3, n3, l3 := disk, nextFree, lay;
      ghost var nd := NewLeaf(flags == 1, x);
      ghost var k, d, more;
      ok, k, d, more := AddDirent(parent, name, c, flags);
      if !ok { return; }
      RangeOf(d3, lay, rootBlock, dataStart, n3);
      LeafKept(d3, disk, lay, rootBlock, dataStart, n3, parent, name, c, x, nd, k, d, more, flags);
      if name in lay.nodes[parent].ents {
        WidenedLoses(lay, parent, more, c);
        lay := Widened(lay, parent, more, c);
        ShadowsPath(d3, disk, l3, rootBlock, dataStart, n3, nextFree, parent, name, c, k, d, more, flags);
      } else {
        ghost var s := Slot(c, if more == [] then k else |lay.nodes[parent].blocks|, if more == [] then d else 0);
        LinkLoses(lay, parent, name, s, nd, x, more);
        lay := LinkChild(lay, parent, name, s, nd, x, more);
        LinksPath(d3, disk, l3, rootBlock, dataStart, n3, nextFree, parent, name, s, nd, x, more, flags, pp);
      }
    }

    /** Create a file (flags 0) or directory (flags 1) for a string that nothing is found at. Failure
        changes no path; success adds the path of the new entry, unless it is there already. */
    method CreateEntry(path: Bytes, flags: nat) returns (ino: nat, ghost x: nat)
      requires Valid() && Passable(disk, rootBlock, path) && flags <= 1 && Resolve(disk, rootBlock, path) == 0
      modifies this`disk, this`nextFree, this`lay
      ensures Valid()
      ensures ino == 0 ==> SamePaths(old(disk), disk, rootBlock)
      ensures ino != 0 ==> NodeOk(disk, ino, NewLeaf(flags == 1, x))
      ensures ino != 0 && PathIno(old(disk), rootBlock, Target(path)) == 0 ==>
                SetsPath(old(disk), disk, rootBlock, Target(path), if flags == 1 then IsDir(ino) else IsFile(ino, []))
      ensures ino != 0 && PathIno(old(disk), rootBlock, Target(path)) != 0 ==>
                SamePaths(old(disk), disk, rootBlock) && Loose(lay, ino, x, dataStart, nextFree)
      ensures ino != 0 <==> CanCreate(old(disk), total, old(nextFree), rootBlock, path)
      ensures ino != 0 ==> nextFree == old(nextFree) + CreateCost(old(disk), rootBlock, path)
      ensures NoneLost(lay) <==> NoneLost(old(lay)) && (ino == 0 || PathIno(old(disk), rootBlock, Target(path)) == 0)
    {
      hide Represents, Described, Exact, PathIno, ThroughDirs, NodeOk, HasFreeSlot, Lookup, DirBlocks, InodeAt, Resolve,
           SamePaths, SetsPath, Walk, Leaf, Components, Target, ParentIno, BaseName, Passable,
           NoneLost;
      x := 0;
      PassableIs(disk, rootBlock, path);
      ghost var d0, n0, q := disk, nextFree, Target(path);
      var parent, name := ResolveParent(path);
      SamePathsRefl(disk, rootBlock);
      if parent == 0 || name == [] { return 0, x; }
      ParentIs(disk, lay, rootBlock, dataStart, nextFree, path);
      ParentFacts(disk, lay, rootBlock, dataStart, nextFree, q);
      RangeOf(d0, lay, rootBlock, dataStart, n0);
      ino := AllocNext();
      if ino == 0 {
        SameTree(d0, disk, lay, rootBlock, dataStart, n0, nextFree);
        return;
      }
      var y := AllocNext();
      x := y;
      if y == 0 {
        SameTree(d0, disk, lay, rootBlock, dataStart, n0, nextFree);
        return 0, x;
      }
      InitChild(ino, y, Cut(name), flags);
      SameTree(d0, disk, lay, rootBlock, dataStart, n0, nextFree);
      FreeSlotFrame(d0, disk, lay.nodes[parent].blocks);
      ghost var d3 := disk;
      var ok := EnterChild(parent, Cut(name), ino, y, flags, q[..|q| - 1]);
      if !ok { return 0, x; }
      assert q == q[..|q| - 1] + [Cut(name)];
      EntryFrom(d0, d3, disk, rootBlock, q, if flags == 1 then IsDir(ino) else IsFile(ino, []));
    }

    /** Create a directory. A string that already leads somewhere is success with no change. */
    method Mkdir(path: Bytes) returns (ret: int, ghost at: nat)
      requires Valid() && Passable(disk, rootBlock, path)
      modifies this`disk, this`nextFree, this`lay
      ensures Valid()
      ensures old(Resolve(disk, rootBlock, path)) != 0 ==> ret == 0 && disk == old(disk)
      ensures old(Resolve(disk, rootBlock, path)) == 0 ==>
                && ret == (if CanCreate(old(disk), total, old(nextFree), rootBlock, path) then 0 else -1)
                && if ret == 0 && !old(Shadowed(disk, rootBlock, path))
                   then SetsPath(old(disk), disk, rootBlock, Target(path), IsDir(at))
                   else SamePaths(old(disk), disk, rootBlock)
      ensures UniqueNames(disk, rootBlock) <==>
                UniqueNames(old(disk), rootBlock) && !(ret == 0 && old(Shadowed(disk, rootBlock, path)))
    {
      hide Represents, Described, Exact, PathIno, ThroughDirs, CanCreate, SetsPath, SamePaths, Resolve, Components,
           Target, NodeOk, UniqueNames, NoneLost;
      UniqueIs(disk, lay, rootBlock, dataStart, nextFree);
      PassableIs(disk, rootBlock, path);
      ResolveIs(disk, lay, rootBlock, dataStart, nextFree, path);
      var ino, check := ResolvePath(path);
      at := ino;
      if ino != 0 { return 0, at; }
      ghost var x;
      ino, x := CreateEntry(path, 1);
      UniqueIs(disk, lay, rootBlock, dataStart, nextFree);
      at := ino;
      ret := if ino != 0 then 0 else -1;
    }

    // ---- Writing a file ----

    /** Allocate blocks until the record has `needed` of them; in memory only. */
    method GrowFile(inode: Inode, needed: nat) returns (ok: bool, grown: Inode)
      requires Valid()
      requires |inode.dataBlocks| == MAX_BLOCKS && inode.blockCount <= MAX_BLOCKS && needed <= MAX_BLOCKS
      modifies this`disk, this`nextFree
      ensures Valid()
      ensures forall c :: c >= dataStart ==> Sector(disk, c) == Sector(old(disk), c)
      ensures ok == (needed <= inode.blockCount || old(nextFree) + (needed - inode.blockCount) <= total)
      ensures ok ==> grown == GrownBy(inode, old(nextFree), Shortfall(inode.blockCount, needed))
                     && nextFree == old(nextFree) + Shortfall(inode.blockCount, needed)
    {
      hide Represents, Described, Exact;
      grown := inode;
      while grown.blockCount < needed
        invariant Valid() && total == old(total) && dataStart == old(dataStart) && lay == old(lay)
        invariant inode.blockCount <= grown.blockCount <= MAX_BLOCKS
        invariant grown.blockCount > inode.blockCount ==> grown.blockCount <= needed
        invariant nextFree == old(nextFree) + (grown.blockCount - inode.blockCount)
        invariant grown == GrownBy(inode, old(nextFree), grown.blockCount - inode.blockCount)
        invariant forall c :: c >= dataStart ==> Sector(disk, c) == Sector(old(disk), c)
        decreases needed - grown.blockCount
      {
        var nb := AllocNext();
        if nb == 0 { return false, grown; }
        grown := Grown(grown, nb);
      }
      ok := true;
    }

    /** Copy the bytes into the blocks, one block at a time. */
    method WriteData(bs: seq<nat>, data: Bytes)
      requires |data| <= BLOCK_SIZE * |bs|
      requires forall k :: 0 <= k < |bs| ==> bs[k] < |disk|
      requires forall j, k :: 0 <= j < |bs| && 0 <= k < |bs| && j != k ==> bs[j] != bs[k]
      modifies this`disk
      ensures |disk| == |old(disk)|
      ensures StoredBytes(disk, bs, |data|) == data
      ensures forall b :: b !in bs ==> Sector(disk, b) == Sector(old(disk), b)
      ensures data == [] ==> disk == old(disk)
    {
      hide StoredAt, StoredBytes;
      var done := 0;
      while done < |data|
        invariant done <= |data| && |disk| == |old(disk)| && (done == 0 ==> disk == old(disk))
        invariant done % BLOCK_SIZE == 0 || done == |data|
        invariant forall b :: b !in bs ==> Sector(disk, b) == Sector(old(disk), b)
        invariant forall j :: 0 <= j < done ==> StoredAt(disk, bs, j) == data[j]
      {
        var idx, off := done / BLOCK_SIZE, done % BLOCK_SIZE;
        var b := bs[idx];
        var sector := if off != 0 || |data| - done < BLOCK_SIZE then disk[b] else ZERO_BLOCK;
        var chunk := if BLOCK_SIZE - off > |data| - done then |data| - done else BLOCK_SIZE - off;
        ghost var d0, s0 := disk, sector;
        sector := sector[..off] + data[done..done + chunk] + sector[off + chunk..];
        assert sector == data[done..done + chunk] + s0[chunk..];
        disk := disk[b := sector];
        ChunkStored(d0, disk, bs, data, done, chunk, s0, sector);
        done := done + chunk;
      }
      AllStored(disk, bs, data);
    }

    /** Store the bytes in a file: allocate, copy, then write the record. */
    method FillFile(ino: nat, data: Bytes, ghost nd: Node, ghost q: Path, ghost where: Place) returns (ret: int)
      requires Valid() && HeldBy(disk, lay, rootBlock, dataStart, nextFree, ino, nd, q, where)
      modifies this`disk, this`nextFree, this`lay
      ensures ret == if CanFill(old(disk), total, old(nextFree), ino, |data|) then 0 else -1
      ensures ret == -1 ==> Valid() && SamePaths(old(disk), disk, rootBlock)
      ensures ret == 0 ==> Filled(old(disk), disk, ino, data, q, where)
      ensures NoneLost(lay) <==> NoneLost(old(lay))
    {
      hide Represents, Described, Exact, InodeAt, DirBlocks, EncodeInode, SetsPath, SamePaths, HeldBy, Filled, NoneLost;
      ghost var d0, n0, l0 := disk, nextFree, lay;
      var inode := InodeAt(disk, ino);
      HeldRecord(disk, lay, rootBlock, dataStart, nextFree, ino, nd, q, where);
      SameTree(d0, disk, lay, rootBlock, dataStart, n0, nextFree);
      var needed := (|data| + BLOCK_SIZE - 1) / BLOCK_SIZE;
      if needed == 0 { needed := 1; }
      assert needed == BlocksFor(|data|) && |data| <= BLOCK_SIZE * needed;
      if needed > MAX_BLOCKS { return -1; }
      var ok, grown := GrowFile(inode, needed);
      SameTree(d0, disk, lay, rootBlock, dataStart, n0, nextFree);
      if !ok { return -1; }
      StoreFile(ino, data, inode, grown, d0, n0, nd, q, where);
      ret := 0;
    }

    /** What a write leaves behind. Only over a directory may the image be no longer sound. */
    ghost predicate Filled(d0: Disk, d1: Disk, ino: nat, data: Bytes, q: Path, where: Place)
      reads this
    {
      match where
      case InTree => Valid() && SetsPath(d0, d1, rootBlock, q, IsFile(ino, data))
      case Nowhere => Valid() && SamePaths(d0, d1, rootBlock)
      case Directory => && Overwritten(d1, ino, data) && SameAbove(d0, d1, rootBlock, q)
                        && (data == [] ==> Valid() && SamePaths(d0, d1, rootBlock))
    }

    /** The record in memory has the blocks it needs; on disk d0 nothing has happened to file or tree. */
    ghost predicate Allocated(d0: Disk, n0: nat, ino: nat, nd: Node, q: Path, where: Place, inode: Inode, grown: Inode,
                              data: Bytes)
      reads this
    {
      && |inode.dataBlocks| == MAX_BLOCKS && n0 <= nextFree && inode.blockCount + (nextFree - n0) <= MAX_BLOCKS
      && inode == InodeAt(d0, ino) && grown == GrownBy(inode, n0, nextFree - n0)
      && |data| <= BLOCK_SIZE * grown.blockCount && |d0| == total
      && nextFree - n0 == Shortfall(inode.blockCount, BlocksFor(|data|))
      && (forall c :: c >= dataStart ==> Sector(disk, c) == Sector(d0, c))
      && Represents(d0, lay, rootBlock, dataStart, n0) && HeldBy(d0, lay, rootBlock, dataStart, n0, ino, nd, q, where)
    }

    /** Copy the bytes and then write the grown record. */
    method StoreRecord(ino: nat, data: Bytes, inode: Inode, grown: Inode,
                       ghost d0: Disk, ghost n0: nat, ghost nd: Node, ghost q: Path, ghost where: Place)
      returns (ghost d2: Disk)
      requires Valid() && Allocated(d0, n0, ino, nd, q, where, inode, grown, data)
      modifies this`disk
      ensures Geometry() && Wrote(d0, d2, disk, dataStart, ino, nd, n0, nextFree - n0, data)
    {
      hide Represents, Described, Exact, InodeAt, DirBlocks, EncodeInode, StoredBytes, HeldBy, GrownBy, Marked;
      ghost var n := nextFree - n0;
      HeldRecord(d0, lay, rootBlock, dataStart, n0, ino, nd, q, where);
      GrownByBlocks(inode, n0, n);
      var bs := grown.dataBlocks[..grown.blockCount];
      assert bs == nd.blocks + BlockRange(n0, n);
      HeldDistinct(d0, lay, rootBlock, dataStart, n0, ino, nd, q, where, n);
      ghost var d1 := disk;
      WriteData(bs, data);
      d2 := disk;
      assert 0 !in bs && Sector(d2, 0) == d1[0];
      var record := grown.(size := |data|);
      disk := disk[ino := EncodeInode(disk[ino], record)];
      ExactFrame(d1, disk, total, nextFree);
    }

    method StoreFile(ino: nat, data: Bytes, inode: Inode, grown: Inode,
                     ghost d0: Disk, ghost n0: nat, ghost nd: Node, ghost q: Path, ghost where: Place)
      requires Valid() && Allocated(d0, n0, ino, nd, q, where, inode, grown, data)
      modifies this`disk, this`lay
      ensures Filled(d0, disk, ino, data, q, where)
      ensures NoneLost(lay) <==> NoneLost(old(lay))
    {
      hide Represents, Described, Exact, InodeAt, SetsPath, SamePaths, HeldBy, GrownBy, Wrote, Overwritten, NoneLost;
      ghost var n, l0 := nextFree - n0, lay;
      ghost var d2 := StoreRecord(ino, data, inode, grown, d0, n0, nd, q, where);
      match where {
        case Directory =>
          DirOverwritten(d0, d2, disk, lay, rootBlock, dataStart, n0, ino, nd, q, n, data);
          if data == [] { NothingWritten(d0, d2, disk, lay, rootBlock, dataStart, n0, ino, nd, q, n); }
        case InTree =>
          StoredInTree(d0, d2, disk, l0, rootBlock, dataStart, n0, ino, nd, q, n, data);
          HeldLinked(d0, lay, rootBlock, dataStart, n0, ino, nd, q);
          SetFileLoses(lay, ino, BlockRange(n0, n), data);
          lay := SetFile(lay, ino, BlockRange(n0, n), data);
        case Nowhere =>
          StoredNowhere(d0, d2, disk, lay, rootBlock, dataStart, n0, ino, nd, q, n, data);
      }
    }

    /** Write a whole file. Success leaves exactly the given bytes at the path and every other path
        alone; failure leaves every existing path alone, and at most a new, empty file where nothing
        was. But where the string is shadowed, neither changes any path; and where it names a
        directory, the bytes take the place of the directory's entries. */
    method WriteFile(path: Bytes, data: Bytes) returns (ret: int, ghost at: nat)
      requires Valid() && Passable(disk, rootBlock, path)
      modifies this`disk, this`nextFree, this`lay
      ensures ret == if CanWrite(old(disk), total, old(nextFree), rootBlock, path, |data|) then 0 else -1
      ensures Valid() || (ret == 0 && old(NamesDir(disk, rootBlock, path)) && data != [])
      ensures ret == -1 || !old(NamesDir(disk, rootBlock, path)) || data == [] ==>
                (UniqueNames(disk, rootBlock) <==>
                   && UniqueNames(old(disk), rootBlock)
                   && !(old(Shadowed(disk, rootBlock, path))
                        && CanCreate(old(disk), total, old(nextFree), rootBlock, path)))
      ensures old(Resolve(disk, rootBlock, path)) != 0 ==>
                && at == old(Resolve(disk, rootBlock, path))
                && if ret == -1 || (old(NamesDir(disk, rootBlock, path)) && data == [])
                   then SamePaths(old(disk), disk, rootBlock)
                   else if old(NamesDir(disk, rootBlock, path))
                   then Overwritten(disk, at, data) && SameAbove(old(disk), disk, rootBlock, Components(path))
                   else SetsPath(old(disk), disk, rootBlock, Components(path), IsFile(at, data))
      ensures old(Resolve(disk, rootBlock, path)) == 0 && !old(Shadowed(disk, rootBlock, path)) ==>
                if ret == 0 then SetsPath(old(disk), disk, rootBlock, Target(path), IsFile(at, data))
                else || SamePaths(old(disk), disk, rootBlock)
                     || SetsPath(old(disk), disk, rootBlock, Target(path), IsFile(at, []))
      ensures old(Shadowed(disk, rootBlock, path)) ==> SamePaths(old(disk), disk, rootBlock)
    {
      hide Represents, Described, Exact, PathIno, ThroughDirs, Lookup, CanCreate, SetsPath, SamePaths, CreateCost,
           Resolve, FileBlocksAt, InodeAt, HeldBy, Components, Target, NodeOk, Overwritten, NamesDir,
           UniqueNames, NoneLost;
      UniqueIs(disk, lay, rootBlock, dataStart, nextFree);
      PassableIs(disk, rootBlock, path);
      ghost var d0, q, where, nd := disk, Components(path), InTree, NewLeaf(false, 0);
      ResolveIs(disk, lay, rootBlock, dataStart, nextFree, path);
      var ino, inode := ResolvePath(path);
      at := ino;
      if ino == 0 {
        ghost var x;
        ino, x := CreateEntry(path, 0);
        at := ino;
        if ino == 0 {
          UniqueIs(disk, lay, rootBlock, dataStart, nextFree);
          return -1, at;
        }
        OneBlock(disk, ino, x);
        q := Target(path);
        if PathIno(d0, rootBlock, q) == 0 {
          SetsPathAt(d0, disk, rootBlock, q, IsFile(ino, []));
          nd := FileHeld(disk, lay, rootBlock, dataStart, nextFree, q);
        } else {
          where, nd := Nowhere, NewLeaf(false, x);
          OrphanHeld(disk, lay, rootBlock, dataStart, nextFree, ino, nd, q);
        }
      } else {
        where, nd := NamedHeld(disk, lay, rootBlock, dataStart, nextFree, path);
      }
      ghost var d1 := disk;
      ret := FillFile(ino, data, nd, q, where);
      WroteFile(d0, d1, disk, rootBlock, q, ino, data, ret, where);
      if Valid() { UniqueIs(disk, lay, rootBlock, dataStart, nextFree); }
    }
  }

  ghost function RootLayout(root: nat): Layout {
    Layout(map[root := DirNode([root + 1], map[], {})],
           map[root := (root, -1), root + 1 := (root, 0)], map[])
  }

  lemma FreshRoot(disk: Disk, root: nat)
    requires 0 < root && root + 2 <= |disk| && root < MAX_DISK - 1
    requires disk[root] == EncodeInode(ZERO_BLOCK, NewInode([SLASH], 1, root + 1))
    requires disk[root + 1] == ZERO_BLOCK
    ensures Represents(disk, RootLayout(root), root, root, root + 2) && NoneLost(RootLayout(root))
    ensures forall r :: Lookup(disk, root, r) == if r == [] then IsDir(root) else Absent
  {
    hide EncodeInode, NodeOk, Lookup;
    var lay := RootLayout(root);
    NewLeafOk(disk, root, ZERO_BLOCK, [SLASH], 1, root + 1);
    assert Represents(disk, lay, root, root, root + 2);
    forall r ensures Lookup(disk, root, r) == if r == [] then IsDir(root) else Absent {
      LookupIsWalk(disk, lay, root, root, root + 2, r);
      if r != [] {
        assert Walk(lay, root, r) == 0;
      }
    }
  }

  lemma {:induction false} ZeroBits(k: nat)
    ensures !Bit(0, k)
  {
    if k > 0 { ZeroBits(k - 1); }
  }

  lemma BlankBitmap(disk: Disk, total: nat)
    requires forall b :: 1 <= b < |disk| ==> disk[b] == ZERO_BLOCK
    ensures Exact(disk, total, 0)
  {
    hide Bit;
    forall b | 0 <= b < total ensures !Marked(disk, b) {
      ZeroBits(b % 8);
    }
  }

  // ---- Superblock ----

  const MAGIC := 0x58465331

  function SuperBlock(total: nat, free: nat, root: nat, bitmap: nat, start: nat): Block {
    Le(MAGIC, 4) + Le(1, 4) + Le(total, 8) + Le(free, 8) + Le(root, 8) + Le(bitmap, 8) + Le(start, 8)
    + Zeros(BLOCK_SIZE - 48)
  }

  /** The superblock describes an image of this size with this many free blocks. */
  ghost predicate SuperOk(sb: Block, total: nat, free: nat) {
    && FromLe(sb[0..4]) == MAGIC && FromLe(sb[4..8]) == 1
    && FromLe(sb[8..16]) == total && FromLe(sb[16..24]) == free
    && FromLe(sb[24..32]) == DataStart(total) && FromLe(sb[32..40]) == BitmapBlocks(total)
    && FromLe(sb[40..48]) == DataStart(total)
  }

  /** Up to the free count, which is only brought up to date at the end, the superblock is right. */
  ghost predicate Described(sb: Block, total: nat) { SuperOk(sb, total, FromLe(sb[16..24])) }

  lemma IsDescribed(sb: Block, total: nat, free: nat)
    requires SuperOk(sb, total, free)
    ensures Described(sb, total)
  {
  }

  lemma SuperWidths()
    ensures MAGIC < Pow256(4) && MAX_DISK <= Pow256(8)
  {
    Widths();
    assert Pow256(5) == 256 * Pow256(4);
    assert Pow256(7) == 256 * Pow256(6);
    assert Pow256(8) == 256 * Pow256(7);
  }

  lemma SuperFields(total: nat, free: nat, root: nat, bitmap: nat, start: nat)
    ensures var sb := SuperBlock(total, free, root, bitmap, start);
            && sb[0..4] == Le(MAGIC, 4) && sb[4..8] == Le(1, 4) && sb[8..16] == Le(total, 8)
            && sb[16..24] == Le(free, 8) && sb[24..32] == Le(root, 8)
            && sb[32..40] == Le(bitmap, 8) && sb[40..48] == Le(start, 8)
  {
    hide Le;
  }

  lemma SuperBlockOk(total: nat, free: nat, root: nat, bitmap: nat, start: nat)
    requires total < MAX_DISK && free < MAX_DISK && DataStart(total) < MAX_DISK
    requires root == DataStart(total) && start == DataStart(total) && bitmap == BitmapBlocks(total)
    ensures SuperOk(SuperBlock(total, free, root, bitmap, start), total, free)
  {
    hide SuperBlock, Le, FromLe, Pow256;
    SuperFields(total, free, root, bitmap, start);
    SuperWidths();
    assert Pow256(4) > 1 by { Widths(); }
    LeRoundTrip(MAGIC, 4);
    LeRoundTrip(1, 4);
    LeRoundTrip(total, 8);
    LeRoundTrip(free, 8);
    LeRoundTrip(root, 8);
    LeRoundTrip(bitmap, 8);
  }

  lemma FreeCountStored(sb: Block, total: nat, free: nat)
    requires Described(sb, total) && free < MAX_DISK
    ensures SuperOk(sb[..16] + Le(free, 8) + sb[24..], total, free)
  {
    hide Le, FromLe, Pow256;
    var r := sb[..16] + Le(free, 8) + sb[24..];
    SuperWidths();
    LeRoundTrip(free, 8);
    assert r[0..4] == sb[0..4] && r[4..8] == sb[4..8] && r[8..16] == sb[8..16];
    assert r[16..24] == Le(free, 8);
    assert r[24..32] == sb[24..32] && r[32..40] == sb[32..40] && r[40..48] == sb[40..48];
  }

  lemma SamePathsRefl(disk: Disk, root: nat)
    ensures SamePaths(disk, disk, root)
  {
  }

  lemma SetsPathAt(d0: Disk, d1: Disk, root: nat, q: Path, e: Entry)
    requires SetsPath(d0, d1, root, q, e)
    ensures Lookup(d1, root, q) == e
  {
  }

  lemma WroteFile(d0: Disk, d1: Disk, d2: Disk, root: nat, q: Path, i: nat, data: Bytes, ret: int, where: Place)
    requires ret == 0 || ret == -1
    requires || d1 == d0
             || (where.InTree? && SetsPath(d0, d1, root, q, IsFile(i, [])))
             || (where.Nowhere? && SamePaths(d0, d1, root))
    requires ret == -1 ==> SamePaths(d1, d2, root)
    requires ret == 0 && where.InTree? ==> SetsPath(d1, d2, root, q, IsFile(i, data))
    requires ret == 0 && (where.Nowhere? || (where.Directory? && data == [])) ==> SamePaths(d1, d2, root)
    ensures ret == 0 && where.InTree? ==> SetsPath(d0, d2, root, q, IsFile(i, data))
    ensures ret == -1 ==>
              SamePaths(d0, d2, root) || (d1 != d0 && where.InTree? && SetsPath(d0, d2, root, q, IsFile(i, [])))
    ensures where.Nowhere? || (where.Directory? && data == []) ==> SamePaths(d0, d2, root)
  {
    hide SetsPath, SamePaths;
    SamePathsRefl(d0, root);
    if SamePaths(d0, d1, root) && SamePaths(d1, d2, root) { SamePathsTrans(d0, d1, d2, root); }
    if where.InTree? { Composed(d0, d1, d2, root, q, i, data, ret); }
  }

  /** Creating the file and then filling it, seen as one change. */
  lemma Composed(d0: Disk, d1: Disk, d2: Disk, root: nat, q: Path, i: nat, data: Bytes, ret: int)
    requires d1 == d0 || SetsPath(d0, d1, root, q, IsFile(i, []))
    requires ret == 0 ==> SetsPath(d1, d2, root, q, IsFile(i, data))
    requires ret == -1 ==> SamePaths(d1, d2, root)
    ensures ret == 0 ==> SetsPath(d0, d2, root, q, IsFile(i, data))
    ensures ret == -1 ==> if d1 == d0 then SamePaths(d0, d2, root)
                          else SetsPath(d0, d2, root, q, IsFile(i, []))
  {
    hide Lookup;
  }

  lemma AllDistinct(disk: Disk, lay: Layout, root: nat, lo: nat, hi: nat, i: nat, n: nat)
    requires Represents(disk, lay, root, lo, hi) && i in lay.nodes
    ensures var bs := lay.nodes[i].blocks + BlockRange(hi, n);
            && (forall j, k :: 0 <= j < |bs| && 0 <= k < |bs| && j != k ==> bs[j] != bs[k])
            && (forall j :: 0 <= j < |bs| ==> lo <= bs[j] < hi + n && bs[j] != i)
            && NewBlocks(lay, BlockRange(hi, n), lo, hi + n)
  {
    hide Represents, Separated;
    IsSeparated(disk, lay, root, lo, hi);
    BlocksDistinct(lay, lo, hi, i);
    RangeOf(disk, lay, root, lo, hi);
  }

  lemma IsSeparated(disk: Disk, lay: Layout, root: nat, lo: nat, hi: nat)
    requires Represents(disk, lay, root, lo, hi)
    ensures Separated(lay, lo, hi)
  {
  }

  lemma FilledRecord(b: Block, nd: Node, nf: nat, n: nat, data: Bytes)
    requires InodeOk(DecodeInode(b), nd)
    requires |nd.blocks| + n <= MAX_BLOCKS && nf + n <= MAX_DISK
    requires |data| <= BLOCK_SIZE * (|nd.blocks| + n)
    ensures var r := GrownBy(DecodeInode(b), nf, n).(size := |data|);
            && r.Fits() && DecodeInode(EncodeInode(b, r)) == r && (r.IsDir() <==> nd.DirNode?)
            && r.blockCount == |nd.blocks| + n && r.dataBlocks[..|nd.blocks| + n] == nd.blocks + BlockRange(nf, n)
            && (nd.FileNode? ==> InodeOk(r, FileNode(nd.blocks + BlockRange(nf, n), data)))
  {
    hide EncodeInode, DecodeInode, GrownBy;
    DecodedFits(b);
    GrownByBlocks(DecodeInode(b), nf, n);
    InodeRoundTrip(b, GrownBy(DecodeInode(b), nf, n).(size := |data|));
  }

  /** The blocks after the copy and the record write hold the file with its new bytes. */
  lemma FileStored(d0: Disk, d2: Disk, d3: Disk, lay: Layout, root: nat, lo: nat, hi: nat, hi': nat,
                   i: nat, n: nat, data: Bytes)
    requires i in lay.nodes && lay.nodes[i].FileNode?
    requires hi' == hi + n && hi' <= |d2| <= MAX_DISK && i < |d2|
    requires InodeOk(InodeAt(d0, i), lay.nodes[i])
    requires |lay.nodes[i].blocks| + n <= MAX_BLOCKS
    requires var bs := lay.nodes[i].blocks + BlockRange(hi, n);
             && |data| <= BLOCK_SIZE * |bs| && StoredBytes(d2, bs, |data|) == data
             && (forall b :: b >= lo && b !in bs ==> Sector(d2, b) == Sector(d0, b))
             && d3 == d2[i := EncodeInode(d2[i], GrownBy(InodeAt(d0, i), hi, n).(size := |data|))]
    requires Represents(d0, lay, root, lo, hi)
    ensures Represents(d3, SetFile(lay, i, BlockRange(hi, n), data), root, lo, hi')
  {
    hide Represents, EncodeInode, DecodeInode, GrownBy, InodeOk;
    var more := BlockRange(hi, n);
    var bs := lay.nodes[i].blocks + more;
    AllDistinct(d0, lay, root, lo, hi, i, n);
    RangeOf(d0, lay, root, lo, hi);
    assert d2[i] == Sector(d0, i);
    FilledRecord(d2[i], lay.nodes[i], hi, n, data);
    assert StoredBytes(d3, bs, |data|) == StoredBytes(d2, bs, |data|);
    assert NodeOk(d3, i, FileNode(bs, data));
    SetFileRepresents(d0, d3, lay, root, lo, hi, hi', i, more, data);
  }

  lemma FileSetsPath(disk: Disk, disk': Disk, lay: Layout, root: nat, lo: nat, hi: nat, hi': nat,
                     i: nat, more: seq<nat>, data: Bytes, q: Path)
    requires Represents(disk, lay, root, lo, hi)
    requires i in lay.nodes && lay.nodes[i].FileNode? && Walk(lay, root, q) == i
    requires Represents(disk', SetFile(lay, i, more, data), root, lo, hi')
    ensures SetsPath(disk, disk', root, q, IsFile(i, data))
  {
    hide Represents, Lookup, Walk, SetFile;
    forall r ensures Lookup(disk', root, r) == if r == q then IsFile(i, data) else Lookup(disk, root, r) {
      LookupAfterSetFile(disk, disk', lay, root, lo, hi, hi', i, more, data, q, r);
    }
  }

  lemma LinkSetsPath(disk: Disk, disk': Disk, lay: Layout, root: nat, lo: nat, hi: nat, hi': nat,
                     p: nat, n: Name, s: Slot, nd: Node, x: nat, more: seq<nat>, pp: Path)
    requires Represents(disk, lay, root, lo, hi)
    requires p in lay.nodes && lay.nodes[p].DirNode? && |more| <= 1
    requires n !in lay.nodes[p].ents && s.ino !in lay.nodes && s.ino != 0 && Leaf(nd, x)
    requires Walk(lay, root, pp) == p
    requires Represents(disk', LinkChild(lay, p, n, s, nd, x, more), root, lo, hi')
    ensures SetsPath(disk, disk', root, pp + [n], if nd.DirNode? then IsDir(s.ino) else IsFile(s.ino, []))
  {
    hide Represents, Lookup, Walk, LinkChild, Leaf;
    var e := if nd.DirNode? then IsDir(s.ino) else IsFile(s.ino, []);
    forall r ensures Lookup(disk', root, r) == if r == pp + [n] then e else Lookup(disk, root, r) {
      LookupAfterLink(disk, disk', lay, root, lo, hi, hi', p, n, s, nd, x, more, pp, r);
    }
  }

  /** The parent of a path below directories: a directory, which has the name if the path leads somewhere. */
  lemma ParentFacts(disk: Disk, lay: Layout, root: nat, lo: nat, hi: nat, q: Path)
    requires Represents(disk, lay, root, lo, hi) && q != []
    requires ThroughDirs(disk, root, q) && PathIno(disk, root, q[..|q| - 1]) != 0
    ensures var p := PathIno(disk, root, q[..|q| - 1]);
            && p in lay.nodes && lay.nodes[p].DirNode?
            && (q[|q| - 1] in lay.nodes[p].ents <==> PathIno(disk, root, q) != 0)
            && Walk(lay, root, q[..|q| - 1]) == p && lo <= p < hi
            && DirBlocks(InodeAt(disk, p)) == lay.nodes[p].blocks
            && forall k :: 0 <= k < |lay.nodes[p].blocks| ==> lo <= lay.nodes[p].blocks[k] < hi
  {
    hide Represents;
    var pp := q[..|q| - 1];
    PathInoIsWalk(disk, lay, root, lo, hi, q);
    PathInoIsWalk(disk, lay, root, lo, hi, pp);
    var p := Walk(lay, root, pp);
    NodeRecord(disk, lay, root, lo, hi, p);
    EntryNonzero(disk, lay, root, lo, hi, p);
  }

  lemma PassableIs(disk: Disk, root: nat, path: Bytes)
    requires Passable(disk, root, path)
    ensures path != [] && 0 !in path && 0 !in BaseName(path)
    ensures path[0] == SLASH ==> ThroughDirs(disk, root, Components(path)) && ThroughDirs(disk, root, Target(path))
  {
    hide ThroughDirs, Components, Target;
  }

  /** The parent's inode is what the parent's path leads to. */
  lemma ParentIs(disk: Disk, lay: Layout, root: nat, lo: nat, hi: nat, path: Bytes)
    requires Represents(disk, lay, root, lo, hi) && Passable(disk, root, path) && ParentIno(disk, root, path) != 0
    ensures var q := Target(path);
            && ThroughDirs(disk, root, q) && ParentIno(disk, root, path) == PathIno(disk, root, q[..|q| - 1])
            && (BaseName(path) != [] ==> GoodName(q[|q| - 1]))
  {
    hide Represents, Components, InodeAt;
    RootIsDir(disk, lay, root, lo, hi);
    var q := Target(path);
    if LastSlashAt(path) == 0 {
      assert |q| == 1 && q[..0] == [];
    } else {
      assert ParentString(path)[0] == path[0];
    }
  }

  /** What follows component k of a string. */
  lemma {:induction false} NextComponent(path: Bytes, p: nat, q: Path, k: nat)
    requires p < |path| && k <= |q| && q[k..] == Split(path[p..])
    ensures k < |q| && q[k] == path[p..][..ComponentLen(path[p..], 0)] && p + |q[k]| <= |path|
    ensures var e := p + |q[k]|; var p' := if e < |path| && path[e] == SLASH then e + 1 else e;
            && p < p' <= |path| && (p' == |path| <==> k + 1 == |q|) && (p' < |path| ==> q[k + 1..] == Split(path[p'..]))
  {
    hide ComponentLen, Behind, Split;
    var s := path[p..];
    SplitFirst(s);
    BehindAt(path, p);
    SplitFirst(Behind(s));
    assert q[k..][0] == q[k] && q[k..][1..] == q[k + 1..];
  }

  lemma BehindAt(path: Bytes, p: nat)
    requires p < |path|
    ensures var e := p + ComponentLen(path[p..], 0);
            && e <= |path| && Behind(path[p..]) == if e < |path| && path[e] == SLASH then path[e + 1..] else path[e..]
    ensures |Behind(path[p..])| < |path| - p
  {
    hide ComponentLen;
    var s := path[p..];
    assert s[ComponentLen(s, 0)..] == path[p + ComponentLen(s, 0)..];
  }

  lemma SplitFirst(s: Bytes)
    ensures Split(s) == [s[..ComponentLen(s, 0)]] + (if Behind(s) == [] then [] else Split(Behind(s)))
  {
    hide ComponentLen, Behind;
  }

  /** No entry has an empty name. */
  lemma {:induction false} EmptyLeadsNowhere(disk: Disk, lay: Layout, root: nat, lo: nat, hi: nat, q: Path, k: nat)
    requires Represents(disk, lay, root, lo, hi) && k < |q| && q[k] == []
    ensures PathIno(disk, root, q) == 0 == PathIno(disk, root, q[..k + 1])
  {
    hide Represents;
    var p := q[..k + 1];
    PathInoIsWalk(disk, lay, root, lo, hi, p);
    var d := Walk(lay, root, p[..|p| - 1]);
    if d in lay.nodes && lay.nodes[d].DirNode? && [] in lay.nodes[d].ents { NamesGood(disk, lay, root, lo, hi, d, []); }
    PathInoStops(disk, root, q, k + 1);
  }

  lemma NamesGood(disk: Disk, lay: Layout, root: nat, lo: nat, hi: nat, d: nat, n: Name)
    requires Represents(disk, lay, root, lo, hi) && d in lay.nodes && lay.nodes[d].DirNode? && n in lay.nodes[d].ents
    ensures GoodName(n)
  {
    hide Linked, Separated, Packed, SlotOk;
    assert NodeOk(disk, d, lay.nodes[d]);
    assert EntOk(disk, lay.nodes[d].blocks, n, lay.nodes[d].ents[n]);
  }

  /** A path that leads somewhere leads through directories. */
  lemma {:induction false} LeadsThroughDirs(disk: Disk, root: nat, q: Path)
    requires PathIno(disk, root, q) != 0
    ensures ThroughDirs(disk, root, q)
  {
    hide InodeAt, FindInDir;
    if q != [] {
      var p := q[..|q| - 1];
      LeadsThroughDirs(disk, root, p);
      forall k | 0 <= k < |q| && PathIno(disk, root, q[..k]) != 0
        ensures InodeAt(disk, PathIno(disk, root, q[..k])).IsDir()
      {
        if k < |p| { assert q[..k] == p[..k]; }
      }
    }
  }

  lemma {:induction false} SkipsEmpty(disk: Disk, lay: Layout, root: nat, lo: nat, hi: nat, p: Path, n: Name)
    requires Represents(disk, lay, root, lo, hi) && ThroughDirs(disk, root, p + [n])
    ensures ThroughDirs(disk, root, p + [[], n])
  {
    hide Represents, PathIno, InodeAt;
    var q, r := p + [[], n], p + [n];
    EmptyLeadsNowhere(disk, lay, root, lo, hi, q, |p|);
    forall k | 0 <= k < |q| && PathIno(disk, root, q[..k]) != 0
      ensures InodeAt(disk, PathIno(disk, root, q[..k])).IsDir()
    {
      if k <= |p| { assert q[..k] == r[..k]; }
    }
  }

  lemma {:induction false} NoNul(p: Path, n: Name)
    requires GoodPath(p) && GoodComponent(n)
    ensures 0 !in PathString(p, true) + [SLASH] + n
  {
    RenderNoNul(p);
  }

  lemma {:induction false} RenderNoNul(q: Path)
    requires GoodPath(q)
    ensures 0 !in Render(q)
  {
    if q != [] {
      assert GoodComponent(q[0]);
      RenderNoNul(q[1..]);
    }
  }

  // ---- What an entry does to the paths ----

  lemma LeafKept(d3: Disk, d4: Disk, lay: Layout, root: nat, lo: nat, hi: nat,
                 p: nat, n: Name, c: nat, x: nat, nd: Node, k: nat, d: nat, more: seq<nat>, flags: nat)
    requires Represents(d3, lay, root, lo, hi) && p in lay.nodes && FreshFor(lay, c, x, [], lo, hi)
    requires Leaf(nd, x) && NodeOk(d3, c, nd)
    requires more == [] ==> SlotTaken(d3, d4, lay.nodes[p].blocks, k, d, n, c, flags)
    requires more != [] ==> BlockTaken(d3, d4, lay.nodes[p].blocks, lo, p, n, c, hi, flags)
    ensures NodeOk(d4, c, nd)
  {
    hide Represents, NodeOk, FullBefore, PutDent, EncodeInode, Grown, DentIno;
    OwnBlocks(d3, lay, root, lo, hi, p);
    if more == [] { assert lay.nodes[p].blocks[k] in lay.nodes[p].blocks; }
    NodeFrame(d3, d4, c, nd);
  }

  lemma LinksPath(d3: Disk, d4: Disk, lay: Layout, root: nat, lo: nat, hi: nat, hi': nat,
                  p: nat, n: Name, s: Slot, nd: Node, x: nat, more: seq<nat>, flags: nat, pp: Path)
    requires Represents(d3, lay, root, lo, hi) && p in lay.nodes && lay.nodes[p].DirNode? && Walk(lay, root, pp) == p
    requires n !in lay.nodes[p].ents && GoodName(n) && p < s.ino < 0x1_0000_0000 && hi <= hi' <= |d4|
    requires FreshFor(lay, s.ino, x, [], lo, hi) && Leaf(nd, x) && NodeOk(d3, s.ino, nd) && s.ino !in lay.nodes
    requires more == [] ==> hi' == hi && SlotTaken(d3, d4, lay.nodes[p].blocks, s.k, s.d, n, s.ino, flags)
    requires more != [] ==> more == [hi] && hi' == hi + 1 <= MAX_DISK && s.k == |lay.nodes[p].blocks| && s.d == 0
                            && BlockTaken(d3, d4, lay.nodes[p].blocks, lo, p, n, s.ino, hi, flags)
    ensures Represents(d4, LinkChild(lay, p, n, s, nd, x, more), root, lo, hi')
    ensures SetsPath(d3, d4, root, pp + [n], if nd.DirNode? then IsDir(s.ino) else IsFile(s.ino, []))
  {
    hide Represents, NodeOk, SlotTaken, BlockTaken, LinkChild, Leaf, SetsPath, Walk;
    RangeOf(d3, lay, root, lo, hi);
    if more == [] {
      LinkBySlot(d3, d4, lay, root, lo, hi, p, n, s.ino, x, nd, s.k, s.d, flags);
    } else {
      LinkByBlock(d3, d4, lay, root, lo, hi, hi', p, n, s.ino, x, nd, hi, flags);
    }
    LinkSetsPath(d3, d4, lay, root, lo, hi, hi', p, n, s, nd, x, more, pp);
  }

  lemma ShadowsPath(d3: Disk, d4: Disk, lay: Layout, root: nat, lo: nat, hi: nat, hi': nat,
                    p: nat, n: Name, c: nat, k: nat, d: nat, more: seq<nat>, flags: nat)
    requires Represents(d3, lay, root, lo, hi) && p in lay.nodes && lay.nodes[p].DirNode?
    requires n in lay.nodes[p].ents && GoodName(n) && 0 < c < 0x1_0000_0000 && hi <= hi' <= |d4|
    requires c !in lay.own && lo <= c < hi
    requires more == [] ==> hi' == hi && SlotTaken(d3, d4, lay.nodes[p].blocks, k, d, n, c, flags)
    requires more != [] ==> more == [hi] && hi' == hi + 1 <= MAX_DISK
                            && BlockTaken(d3, d4, lay.nodes[p].blocks, lo, p, n, c, hi, flags)
    ensures Represents(d4, Widened(lay, p, more, c), root, lo, hi')
    ensures SamePaths(d3, d4, root)
  {
    hide Represents, SlotTaken, BlockTaken, Widened, Lookup;
    RangeOf(d3, lay, root, lo, hi);
    if more == [] {
      ShadowBySlot(d3, d4, lay, root, lo, hi, p, n, c, k, d, flags);
    } else {
      OwnBlocks(d3, lay, root, lo, hi, p);
      ShadowByBlock(d3, d4, lay, root, lo, hi, hi', p, n, c, hi, flags);
    }
    forall r ensures Lookup(d4, root, r) == Lookup(d3, root, r) {
      LookupWidened(d3, d4, lay, root, lo, hi, hi', p, more, c, r);
    }
  }

  lemma EntryFrom(d0: Disk, d1: Disk, d2: Disk, root: nat, q: Path, e: Entry)
    requires SamePaths(d0, d1, root)
    ensures SetsPath(d1, d2, root, q, e) ==> SetsPath(d0, d2, root, q, e)
    ensures SamePaths(d1, d2, root) ==> SamePaths(d0, d2, root)
  {
    hide Lookup;
  }

  lemma SamePathsTrans(d0: Disk, d1: Disk, d2: Disk, root: nat)
    requires SamePaths(d0, d1, root) && SamePaths(d1, d2, root)
    ensures SamePaths(d0, d2, root)
  {
    hide Lookup;
  }

  // ---- Where the bytes of a write go ----

  /** A file of the tree; a new one that no path leads to; a directory. */
  datatype Place = InTree | Nowhere | Directory

  ghost predicate HeldBy(disk: Disk, lay: Layout, root: nat, lo: nat, hi: nat, i: nat, nd: Node, q: Path,
                         where: Place) {
    && NodeOk(disk, i, nd) && (nd.DirNode? <==> where.Directory?)
    && match where
       case InTree => i in lay.nodes && lay.nodes[i] == nd && Walk(lay, root, q) == i
       case Nowhere => |nd.blocks| == 1 && Loose(lay, i, nd.blocks[0], lo, hi)
       case Directory => i in lay.nodes && lay.nodes[i] == nd && Walk(lay, root, q) == i
  }

  /** The string names a directory. */
  ghost predicate NamesDir(disk: Disk, root: nat, path: Bytes) {
    Resolve(disk, root, path) != 0 && InodeAt(disk, Resolve(disk, root, path)).IsDir()
  }

  /** The bytes are where the entries of directory i were. */
  ghost predicate Overwritten(disk: Disk, i: nat, data: Bytes) {
    var ino := InodeAt(disk, i);
    && ino.IsDir() && |data| <= BLOCK_SIZE * |DirBlocks(ino)| && StoredBytes(disk, DirBlocks(ino), |data|) == data
  }

  /** Whatever is not below q is as it was. */
  ghost predicate SameAbove(d0: Disk, d1: Disk, root: nat, q: Path) {
    forall r :: !(q < r) ==> Lookup(d1, root, r) == Lookup(d0, root, r)
  }

  /** Zeros over the whole of a directory leave it without an entry. */
  lemma {:induction false} ZerosLoseAll(disk: Disk, i: nat, data: Bytes, n: Name)
    requires Overwritten(disk, i, data) && |data| == BLOCK_SIZE * |DirBlocks(InodeAt(disk, i))|
    requires forall j :: 0 <= j < |data| ==> data[j] == 0
    ensures FindInDir(disk, i, n) == 0
  {
    hide InodeAt, DirBlocks, FindInBlocks;
    var bs := DirBlocks(InodeAt(disk, i));
    forall k | 0 <= k < |bs| ensures Sector(disk, bs[k]) == ZERO_BLOCK {
      ZeroSector(disk, bs, data, k);
    }
    NothingFound(disk, bs, n);
  }

  lemma {:induction false} ZeroSector(disk: Disk, bs: seq<nat>, data: Bytes, k: nat)
    requires |data| == BLOCK_SIZE * |bs| && StoredBytes(disk, bs, |data|) == data && k < |bs|
    requires forall j :: 0 <= j < |data| ==> data[j] == 0
    ensures Sector(disk, bs[k]) == ZERO_BLOCK
  {
    var s := Sector(disk, bs[k]);
    forall j | 0 <= j < BLOCK_SIZE ensures s[j] == 0 {
      var m := BLOCK_SIZE * k + j;
      assert m / BLOCK_SIZE == k && m % BLOCK_SIZE == j;
      assert StoredBytes(disk, bs, |data|)[m] == s[j];
    }
  }

  lemma {:induction false} NothingFound(disk: Disk, bs: seq<nat>, n: Name)
    requires forall k :: 0 <= k < |bs| ==> Sector(disk, bs[k]) == ZERO_BLOCK
    ensures FindInBlocks(disk, bs, n) == 0
  {
    if bs != [] {
      NothingInBlock(n, 0);
      NothingFound(disk, bs[1..], n);
    }
  }

  lemma {:induction false} NothingInBlock(n: Name, d: nat)
    requires d <= DENTS_PER_BLOCK
    ensures FindInBlock(ZERO_BLOCK, n, d) == 0
    decreases DENTS_PER_BLOCK - d
  {
    if d < DENTS_PER_BLOCK {
      ZeroBlockEmpty();
      NothingInBlock(n, d + 1);
    }
  }

  /** The bytes are in the blocks of nd and in n more from hi on, and the record says so. */
  ghost predicate Wrote(d0: Disk, d2: Disk, d3: Disk, lo: nat, i: nat, nd: Node, hi: nat, n: nat, data: Bytes) {
    var bs := nd.blocks + BlockRange(hi, n);
    && |bs| <= MAX_BLOCKS && InodeAt(d0, i).blockCount == |nd.blocks| && i < |d2| && hi + n <= |d2| <= MAX_DISK
    && i !in bs
    && |data| <= BLOCK_SIZE * |bs| && StoredBytes(d2, bs, |data|) == data
    && (forall b :: b >= lo && (b !in bs || data == []) ==> Sector(d2, b) == Sector(d0, b))
    && d3 == d2[i := EncodeInode(d2[i], GrownBy(InodeAt(d0, i), hi, n).(size := |data|))]
  }

  lemma StoredInTree(d0: Disk, d2: Disk, d3: Disk, lay: Layout, root: nat, lo: nat, hi: nat,
                     i: nat, nd: Node, q: Path, n: nat, data: Bytes)
    requires Represents(d0, lay, root, lo, hi) && HeldBy(d0, lay, root, lo, hi, i, nd, q, InTree)
    requires Wrote(d0, d2, d3, lo, i, nd, hi, n, data)
    ensures i in lay.nodes && Represents(d3, SetFile(lay, i, BlockRange(hi, n), data), root, lo, hi + n)
    ensures SetsPath(d0, d3, root, q, IsFile(i, data))
  {
    hide Represents, HeldBy, EncodeInode, GrownBy, InodeAt, SetsPath, StoredBytes;
    HeldLinked(d0, lay, root, lo, hi, i, nd, q);
    FileStored(d0, d2, d3, lay, root, lo, hi, hi + n, i, n, data);
    FileSetsPath(d0, d3, lay, root, lo, hi, hi + n, i, BlockRange(hi, n), data, q);
  }

  lemma StoredNowhere(d0: Disk, d2: Disk, d3: Disk, lay: Layout, root: nat, lo: nat, hi: nat,
                      i: nat, nd: Node, q: Path, n: nat, data: Bytes)
    requires Represents(d0, lay, root, lo, hi) && HeldBy(d0, lay, root, lo, hi, i, nd, q, Nowhere)
    requires Wrote(d0, d2, d3, lo, i, nd, hi, n, data)
    ensures Represents(d3, lay, root, lo, hi + n) && SamePaths(d0, d3, root)
  {
    hide Represents, HeldBy, EncodeInode, GrownBy, InodeAt, SamePaths, StoredBytes;
    HeldDistinct(d0, lay, root, lo, hi, i, nd, q, Nowhere, n);
    RangeOf(d0, lay, root, lo, hi);
    TreeFrame(d0, d3, lay, root, lo, hi, hi + n);
    SameTree(d0, d3, lay, root, lo, hi, hi + n);
  }

  /** Only the blocks of nd, the inode block i, and blocks outside the tree have changed. */
  ghost predicate ChangedAt(d0: Disk, d3: Disk, lay: Layout, i: nat)
    requires i in lay.nodes
  {
    forall b :: b in lay.own && b != i && b !in lay.nodes[i].blocks ==> Sector(d3, b) == Sector(d0, b)
  }

  lemma AboveKept(d0: Disk, d2: Disk, d3: Disk, lay: Layout, root: nat, lo: nat, hi: nat,
                  i: nat, nd: Node, q: Path, n: nat, data: Bytes)
    requires Represents(d0, lay, root, lo, hi) && HeldBy(d0, lay, root, lo, hi, i, nd, q, Directory)
    requires Wrote(d0, d2, d3, lo, i, nd, hi, n, data) && InodeAt(d3, i).IsDir()
    ensures SameAbove(d0, d3, root, q)
  {
    hide Represents, EncodeInode, GrownBy, NodeOk, Lookup, StoredBytes, InodeAt;
    RangeOf(d0, lay, root, lo, hi);
    DirRecord(d0, i, nd);
    assert ChangedAt(d0, d3, lay, i);
    forall r | !(q < r) ensures Lookup(d3, root, r) == Lookup(d0, root, r) {
      hide Wrote;
      LookupAbove(d0, d3, lay, root, lo, hi, i, q, r);
    }
  }

  lemma DirRecord(disk: Disk, i: nat, nd: Node)
    requires NodeOk(disk, i, nd) && nd.DirNode?
    ensures InodeAt(disk, i).IsDir()
  {
  }

  lemma {:induction false} PathAbove(d0: Disk, d3: Disk, lay: Layout, root: nat, lo: nat, hi: nat, i: nat, q: Path,
                                     r: Path)
    requires Represents(d0, lay, root, lo, hi) && i in lay.nodes && Walk(lay, root, q) == i && i != 0 && !(q < r)
    requires ChangedAt(d0, d3, lay, i)
    ensures PathIno(d3, root, r) == PathIno(d0, root, r)
  {
    hide Represents, ChangedAt, InodeAt, FindInDir, Walk, Linked;
    if r != [] {
      var p := r[..|r| - 1];
      assert q <= p ==> q < r;
      PathAbove(d0, d3, lay, root, lo, hi, i, q, p);
      var d := PathIno(d0, root, p);
      if d != 0 {
        PathInoIsWalk(d0, lay, root, lo, hi, p);
        LinkedIs(d0, lay, root, lo, hi);
        if d == i { PathUnique(lay, root, p, q); }
        FindAbove(d0, d3, lay, root, lo, hi, i, d, r[|r| - 1]);
      }
    }
  }

  lemma FindAbove(d0: Disk, d3: Disk, lay: Layout, root: nat, lo: nat, hi: nat, i: nat, d: nat, n: Name)
    requires Represents(d0, lay, root, lo, hi) && i in lay.nodes && d in lay.nodes && d != i
    requires ChangedAt(d0, d3, lay, i)
    ensures InodeAt(d3, d) == InodeAt(d0, d) && FindInDir(d3, d, n) == FindInDir(d0, d, n)
  {
    hide Represents, ChangedAt, InodeAt, NodeOk, FindInBlocks;
    OtherRecord(d0, d3, lay, root, lo, hi, i, d);
    FindFrame(d0, d3, DirBlocks(InodeAt(d0, d)), n);
  }

  lemma {:induction false} FindFrame(d0: Disk, d3: Disk, bs: seq<nat>, n: Name)
    requires SameAt(d0, d3, bs)
    ensures FindInBlocks(d3, bs, n) == FindInBlocks(d0, bs, n)
  {
    if bs != [] {
      assert SameAt(d0, d3, bs[1..]) by { assert forall k :: 0 <= k < |bs| - 1 ==> bs[1..][k] == bs[k + 1]; }
      FindFrame(d0, d3, bs[1..], n);
    }
  }

  lemma OtherRecord(d0: Disk, d3: Disk, lay: Layout, root: nat, lo: nat, hi: nat, i: nat, d: nat)
    requires Represents(d0, lay, root, lo, hi) && i in lay.nodes && d in lay.nodes && d != i
    requires ChangedAt(d0, d3, lay, i)
    ensures InodeAt(d3, d) == InodeAt(d0, d) && SameAt(d0, d3, DirBlocks(InodeAt(d0, d))) && NodeOk(d3, d, lay.nodes[d])
  {
    hide Linked, NodeOk;
    assert lay.own[d] == (d, -1);
    OthersFrame(d0, d3, lay, lo, hi, i, d);
    NodeRecord(d0, lay, root, lo, hi, d);
    var bs, ps := lay.nodes[d].blocks, lay.nodes[i].blocks;
    forall j | 0 <= j < |ps| ensures ps[j] != d { assert lay.own[ps[j]] == (i, j); }
    forall k | 0 <= k < |bs| ensures Sector(d3, bs[k]) == Sector(d0, bs[k]) {
      assert lay.own[bs[k]] == (d, k);
      forall j | 0 <= j < |ps| ensures ps[j] != bs[k] { assert lay.own[ps[j]] == (i, j); }
    }
  }

  lemma LookupAbove(d0: Disk, d3: Disk, lay: Layout, root: nat, lo: nat, hi: nat, i: nat, q: Path, r: Path)
    requires Represents(d0, lay, root, lo, hi) && i in lay.nodes && Walk(lay, root, q) == i && i != 0 && !(q < r)
    requires ChangedAt(d0, d3, lay, i) && InodeAt(d0, i).IsDir() && InodeAt(d3, i).IsDir()
    ensures Lookup(d3, root, r) == Lookup(d0, root, r)
  {
    hide Represents, ChangedAt, InodeAt, NodeOk, PathIno, Walk;
    PathAbove(d0, d3, lay, root, lo, hi, i, q, r);
    var e := PathIno(d0, root, r);
    PathInoIsWalk(d0, lay, root, lo, hi, r);
    if e != 0 && e != i {
      OtherRecord(d0, d3, lay, root, lo, hi, i, e);
      NodeIn(d0, lay, root, lo, hi, e);
      EntryIsNode(d0, e, lay.nodes[e]);
      EntryIsNode(d3, e, lay.nodes[e]);
    }
  }

  lemma DirOverwritten(d0: Disk, d2: Disk, d3: Disk, lay: Layout, root: nat, lo: nat, hi: nat,
                       i: nat, nd: Node, q: Path, n: nat, data: Bytes)
    requires Represents(d0, lay, root, lo, hi) && HeldBy(d0, lay, root, lo, hi, i, nd, q, Directory)
    requires Wrote(d0, d2, d3, lo, i, nd, hi, n, data)
    ensures Overwritten(d3, i, data) && SameAbove(d0, d3, root, q)
  {
    hide Represents, NodeOk, Wrote, SameAbove, Overwritten;
    HeldRecord(d0, lay, root, lo, hi, i, nd, q, Directory);
    RecordOverwritten(d0, d2, d3, lo, i, nd, hi, n, data);
    AboveKept(d0, d2, d3, lay, root, lo, hi, i, nd, q, n, data);
  }

  lemma RecordOverwritten(d0: Disk, d2: Disk, d3: Disk, lo: nat, i: nat, nd: Node, hi: nat, n: nat, data: Bytes)
    requires NodeOk(d0, i, nd) && nd.DirNode? && lo <= i && Wrote(d0, d2, d3, lo, i, nd, hi, n, data)
    ensures Overwritten(d3, i, data) && InodeAt(d3, i).IsDir()
  {
    hide EncodeInode, DecodeInode, GrownBy, DirOk;
    var bs := nd.blocks + BlockRange(hi, n);
    assert d2[i] == Sector(d0, i);
    FilledRecord(d2[i], nd, hi, n, data);
    assert StoredBytes(d3, bs, |data|) == StoredBytes(d2, bs, |data|);
    assert DirBlocks(InodeAt(d3, i)) == bs;
  }

  /** Over a directory, no bytes change nothing but the size in its record. */
  lemma NothingWritten(d0: Disk, d2: Disk, d3: Disk, lay: Layout, root: nat, lo: nat, hi: nat,
                       i: nat, nd: Node, q: Path, n: nat)
    requires Represents(d0, lay, root, lo, hi) && HeldBy(d0, lay, root, lo, hi, i, nd, q, Directory)
    requires Wrote(d0, d2, d3, lo, i, nd, hi, n, []) && n == Shortfall(InodeAt(d0, i).blockCount, BlocksFor(0))
    ensures Represents(d3, lay, root, lo, hi + n) && SamePaths(d0, d3, root)
  {
    hide Represents, SamePaths, EncodeInode, GrownBy, StoredBytes, DirOk, InodeAt;
    NodeRecord(d0, lay, root, lo, hi, i);
    SizeOnly(d0, d2, d3, lo, i, nd, hi, n);
    OneRewritten(d0, d3, lay, root, lo, hi, i);
    SameTree(d0, d3, lay, root, lo, hi, hi);
  }

  lemma SizeOnly(d0: Disk, d2: Disk, d3: Disk, lo: nat, i: nat, nd: Node, hi: nat, n: nat)
    requires NodeOk(d0, i, nd) && nd.DirNode? && lo <= i && (forall k :: 0 <= k < |nd.blocks| ==> lo <= nd.blocks[k])
    requires Wrote(d0, d2, d3, lo, i, nd, hi, n, []) && n == Shortfall(InodeAt(d0, i).blockCount, BlocksFor(0))
    ensures NodeOk(d3, i, nd) && n == 0 && hi <= |d3|
    ensures forall b :: b >= lo && b != i ==> Sector(d3, b) == Sector(d0, b)
  {
    hide EncodeInode, DecodeInode, GrownBy, DirOk, StoredBytes;
    assert BlockRange(hi, 0) == [] && nd.blocks + [] == nd.blocks;
    assert d2[i] == Sector(d0, i);
    FilledRecord(d2[i], nd, hi, n, []);
    assert SameAt(d0, d3, nd.blocks) by {
      assert forall k :: 0 <= k < |nd.blocks| ==> nd.blocks[k] in nd.blocks;
    }
    DirFrame(d0, d3, nd.blocks, nd.ents, nd.lost);
  }

  lemma OneRewritten(d0: Disk, d3: Disk, lay: Layout, root: nat, lo: nat, hi: nat, i: nat)
    requires Represents(d0, lay, root, lo, hi) && i in lay.nodes && NodeOk(d3, i, lay.nodes[i]) && hi <= |d3|
    requires forall b :: b >= lo && b != i ==> Sector(d3, b) == Sector(d0, b)
    ensures Represents(d3, lay, root, lo, hi)
  {
    hide Linked, NodeOk, Lost;
    forall h | h in lay.nodes ensures NodeOk(d3, h, lay.nodes[h]) {
      if h != i { OthersFrame(d0, d3, lay, lo, hi, i, h); }
    }
  }

  lemma HeldLinked(disk: Disk, lay: Layout, root: nat, lo: nat, hi: nat, i: nat, nd: Node, q: Path)
    requires HeldBy(disk, lay, root, lo, hi, i, nd, q, InTree)
    ensures nd.FileNode? && i in lay.nodes && lay.nodes[i] == nd && Walk(lay, root, q) == i
    ensures InodeOk(InodeAt(disk, i), nd)
  {
  }

  lemma FileHeld(disk: Disk, lay: Layout, root: nat, lo: nat, hi: nat, q: Path) returns (nd: Node)
    requires Represents(disk, lay, root, lo, hi) && Lookup(disk, root, q).IsFile?
    ensures Lookup(disk, root, q).ino == PathIno(disk, root, q)
    ensures HeldBy(disk, lay, root, lo, hi, PathIno(disk, root, q), nd, q, InTree)
  {
    hide Represents, Walk;
    PathInoIsWalk(disk, lay, root, lo, hi, q);
    LookupIsWalk(disk, lay, root, lo, hi, q);
    NodeIn(disk, lay, root, lo, hi, PathIno(disk, root, q));
    nd := lay.nodes[PathIno(disk, root, q)];
  }

  /** What a string names: a file of the tree, or a directory. */
  lemma NamedHeld(disk: Disk, lay: Layout, root: nat, lo: nat, hi: nat, path: Bytes) returns (where: Place, nd: Node)
    requires Represents(disk, lay, root, lo, hi) && path != [] && Resolve(disk, root, path) != 0
    ensures where == if NamesDir(disk, root, path) then Directory else InTree
    ensures HeldBy(disk, lay, root, lo, hi, Resolve(disk, root, path), nd, Components(path), where)
  {
    hide Represents, Walk, Components, PathIno;
    var q := Components(path);
    PathInoIsWalk(disk, lay, root, lo, hi, q);
    NodeIn(disk, lay, root, lo, hi, PathIno(disk, root, q));
    nd := lay.nodes[PathIno(disk, root, q)];
    where := if nd.DirNode? then Directory else InTree;
  }

  lemma NodeIn(disk: Disk, lay: Layout, root: nat, lo: nat, hi: nat, i: nat)
    requires Represents(disk, lay, root, lo, hi) && i in lay.nodes
    ensures NodeOk(disk, i, lay.nodes[i])
  {
  }

  lemma OrphanHeld(disk: Disk, lay: Layout, root: nat, lo: nat, hi: nat, i: nat, nd: Node, q: Path)
    requires nd.FileNode? && |nd.blocks| == 1 && NodeOk(disk, i, nd) && Loose(lay, i, nd.blocks[0], lo, hi)
    ensures HeldBy(disk, lay, root, lo, hi, i, nd, q, Nowhere)
  {
  }

  lemma OneBlock(disk: Disk, i: nat, x: nat)
    requires NodeOk(disk, i, NewLeaf(false, x))
    ensures FileBlocksAt(disk, i) == 1
  {
  }

  lemma HeldRecord(disk: Disk, lay: Layout, root: nat, lo: nat, hi: nat, i: nat, nd: Node, q: Path, where: Place)
    requires Represents(disk, lay, root, lo, hi) && HeldBy(disk, lay, root, lo, hi, i, nd, q, where)
    ensures lo <= i < hi <= |disk| && 0 < lo
    ensures var ino := InodeAt(disk, i);
            && ino.blockCount == |nd.blocks| <= MAX_BLOCKS && ino.dataBlocks[..ino.blockCount] == nd.blocks
            && DirBlocks(ino) == nd.blocks
  {
    hide Linked, InodeAt, StoredBytes;
    if !where.Nowhere? { assert i in lay.own; }
  }

  lemma HeldDistinct(disk: Disk, lay: Layout, root: nat, lo: nat, hi: nat, i: nat, nd: Node, q: Path, where: Place,
                     n: nat)
    requires Represents(disk, lay, root, lo, hi) && HeldBy(disk, lay, root, lo, hi, i, nd, q, where)
    ensures var bs := nd.blocks + BlockRange(hi, n);
            && (forall j, k :: 0 <= j < |bs| && 0 <= k < |bs| && j != k ==> bs[j] != bs[k])
            && (forall j :: 0 <= j < |bs| ==> lo <= bs[j] < hi + n && bs[j] != i)
            && (where.Nowhere? ==> i !in lay.own && forall b :: b in bs ==> b !in lay.own)
  {
    hide Represents, NodeOk, Walk, NewBlocks, Lost;
    RangeOf(disk, lay, root, lo, hi);
    if !where.Nowhere? {
      AllDistinct(disk, lay, root, lo, hi, i, n);
    }
  }

  lemma EntryNonzero(disk: Disk, lay: Layout, root: nat, lo: nat, hi: nat, p: nat)
    requires Represents(disk, lay, root, lo, hi) && p in lay.nodes && lay.nodes[p].DirNode?
    ensures forall n :: n in lay.nodes[p].ents ==> lay.nodes[p].ents[n].ino != 0
  {
    hide Linked, Separated;
    assert NodeOk(disk, p, lay.nodes[p]);
    forall n | n in lay.nodes[p].ents ensures lay.nodes[p].ents[n].ino != 0 {
      assert EntOk(disk, lay.nodes[p].blocks, n, lay.nodes[p].ents[n]);
    }
  }

  lemma RangeOf(disk: Disk, lay: Layout, root: nat, lo: nat, hi: nat)
    requires Represents(disk, lay, root, lo, hi)
    ensures 0 < lo && forall b :: b in lay.own ==> lo <= b < hi
    ensures forall c: nat :: Lost(lay, c) ==> lo <= c < hi && c !in lay.own
    ensures forall i :: i in lay.nodes ==> i in lay.own && lo <= i < hi
  {
    hide Linked, NodeOk, Lost;
    forall i | i in lay.nodes ensures i in lay.own && lo <= i < hi {
      assert i in lay.own;
    }
  }

  lemma ThroughDirsPrefix(disk: Disk, root: nat, q: Path)
    requires ThroughDirs(disk, root, q) && q != []
    ensures ThroughDirs(disk, root, q[..|q| - 1])
  {
    var p := q[..|q| - 1];
    assert forall k :: 0 <= k < |p| ==> p[..k] == q[..k];
  }

  lemma RawRoot(disk: Disk, root: nat)
    ensures RawIno(disk, root, []) == root
  {
  }

  lemma ReadableAt(disk: Disk, root: nat, q: Path, k: nat)
    requires ReadableWay(disk, root, q) && k < |q| && RawIno(disk, root, q[..k]) != 0
    ensures var ino := InodeAt(disk, RawIno(disk, root, q[..k]));
            && ino.blockCount <= MAX_BLOCKS && DirBlocks(ino) == ino.dataBlocks[..ino.blockCount]
            && forall j :: 0 <= j < ino.blockCount ==> ino.dataBlocks[j] < |disk|
  {
    hide InodeAt;
    assert Readable(disk, RawIno(disk, root, q[..k]));
  }

  lemma RawStep(disk: Disk, root: nat, q: Path, k: nat)
    requires k < |q| && RawIno(disk, root, q[..k]) != 0
    ensures RawIno(disk, root, q[..k + 1]) == FindInDir(disk, RawIno(disk, root, q[..k]), q[k])
  {
    hide FindInDir;
    var p := q[..k + 1];
    assert p[..|p| - 1] == q[..k] && p[|p| - 1] == q[k];
  }

  lemma {:induction false} RawStops(disk: Disk, root: nat, q: Path, k: nat)
    requires k <= |q| && RawIno(disk, root, q[..k]) == 0
    ensures RawIno(disk, root, q) == 0
    decreases |q| - k
  {
    if k < |q| {
      assert q[..k + 1][..k] == q[..k];
      RawStops(disk, root, q, k + 1);
    } else {
      assert q[..k] == q;
    }
  }

  lemma ThroughDirsAt(disk: Disk, root: nat, q: Path, k: nat)
    requires ThroughDirs(disk, root, q) && k < |q| && PathIno(disk, root, q[..k]) != 0
    ensures InodeAt(disk, PathIno(disk, root, q[..k])).IsDir()
  {
  }

  lemma RootIsDir(disk: Disk, lay: Layout, root: nat, lo: nat, hi: nat)
    requires Represents(disk, lay, root, lo, hi)
    ensures root != 0 && root < hi && InodeAt(disk, root).IsDir()
  {
    assert root in lay.own;
    assert NodeOk(disk, root, lay.nodes[root]);
  }

  lemma NodeRecord(disk: Disk, lay: Layout, root: nat, lo: nat, hi: nat, i: nat)
    requires Represents(disk, lay, root, lo, hi) && i in lay.nodes
    ensures InodeOk(InodeAt(disk, i), lay.nodes[i])
    ensures lo <= i < hi <= |disk| && 0 < lo
    ensures var ino, bs := InodeAt(disk, i), lay.nodes[i].blocks;
            && ino.blockCount == |bs| <= MAX_BLOCKS && ino.dataBlocks[..ino.blockCount] == bs
            && DirBlocks(ino) == bs
            && forall k :: 0 <= k < |bs| ==> bs[k] == ino.dataBlocks[k] && lo <= bs[k] < hi
  {
    hide Linked, DirOk, InodeAt;
    assert NodeOk(disk, i, lay.nodes[i]);
    BlocksDistinct(lay, lo, hi, i);
    hide Separated;
    var bs := lay.nodes[i].blocks;
    assert forall k :: 0 <= k < |bs| ==> InodeAt(disk, i).dataBlocks[k] == InodeAt(disk, i).dataBlocks[..|bs|][k];
  }

  lemma DirInodeInRange(disk: Disk, lay: Layout, root: nat, lo: nat, hi: nat, q: Path)
    requires Represents(disk, lay, root, lo, hi) && PathIno(disk, root, q) != 0
    ensures var ino := InodeAt(disk, PathIno(disk, root, q));
            && ino.blockCount <= MAX_BLOCKS && DirBlocks(ino) == ino.dataBlocks[..ino.blockCount]
            && forall k :: 0 <= k < ino.blockCount ==> ino.dataBlocks[k] < |disk|
  {
    hide Represents, InodeAt;
    PathInoIsWalk(disk, lay, root, lo, hi, q);
    NodeRecord(disk, lay, root, lo, hi, Walk(lay, root, q));
  }
}

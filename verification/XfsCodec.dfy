/** On-disk layout used by the image formatter: little-endian fields, the inode
    record and the directory entries, all as bytes of one 4096-byte block. */
module XfsCodec {
  import opened Basics

  const BLOCK_SIZE := 4096
  const NAME_MAX := 64
  const MAX_BLOCKS := 900
  const INODE_SIZE := 3676
  const DIRENT_SIZE := 76
  const DENTS_PER_BLOCK := 53

  type Bytes = seq<byte>
  type Block = b: Bytes | |b| == BLOCK_SIZE witness seq(BLOCK_SIZE, _ => 0)

  function Zeros(n: nat): (z: Bytes)
    ensures |z| == n && forall j :: 0 <= j < n ==> z[j] == 0
  {
    seq(n, _ => 0)
  }

  const ZERO_BLOCK: Block := Zeros(BLOCK_SIZE)

  // ---- Little-endian integers ----

  ghost function Pow256(n: nat): (p: nat)
    ensures p > 0
  {
    if n == 0 then 1 else 256 * Pow256(n - 1)
  }

  function Le(v: nat, n: nat): (s: Bytes)
    ensures |s| == n
  {
    if n == 0 then [] else [v % 256] + Le(v / 256, n - 1)
  }

  function FromLe(s: Bytes): nat {
    if s == [] then 0 else s[0] + 256 * FromLe(s[1..])
  }

  lemma {:induction false} LeRoundTrip(v: nat, n: nat)
    requires v < Pow256(n)
    ensures FromLe(Le(v, n)) == v
  {
    if n > 0 {
      assert Le(v, n)[1..] == Le(v / 256, n - 1);
      LeRoundTrip(v / 256, n - 1);
    }
  }

  lemma Widths()
    ensures Pow256(2) == 0x1_0000
    ensures Pow256(4) == 0x1_0000_0000
  {
    assert Pow256(1) == 256;
    assert Pow256(3) == 256 * Pow256(2);
  }

  // ---- C strings held in fixed-size fields ----

  /** The bytes before the first NUL, or the whole field when it holds none. */
  function CStr(s: Bytes): (r: Bytes)
    ensures |r| <= |s| && r == s[..|r|]
    ensures 0 !in r
    ensures |r| < |s| ==> s[|r|] == 0
  {
    if s == [] || s[0] == 0 then [] else
    var t := CStr(s[1..]);
    assert s[..1 + |t|] == [s[0]] + s[1..][..|t|];
    [s[0]] + t
  }

  /** What strncpy leaves in the first 63 bytes: the name, then NUL padding. */
  function PadName(name: Bytes): (s: Bytes)
    ensures |s| == NAME_MAX - 1
  {
    if |name| <= NAME_MAX - 1 then name + Zeros(NAME_MAX - 1 - |name|)
    else name[..NAME_MAX - 1]
  }

  lemma CStrUnique(s: Bytes, r: Bytes)
    requires |r| < |s| && r == s[..|r|] && 0 !in r && s[|r|] == 0
    ensures CStr(s) == r
  {
    assert forall j :: 0 <= j < |r| ==> r[j] == s[j];
  }

  lemma PadRoundTrip(name: Bytes, last: byte)
    requires |name| <= NAME_MAX - 1 && 0 !in name && last == 0
    ensures CStr(PadName(name) + [last]) == name
  {
    CStrUnique(PadName(name) + [last], name);
  }

  // ---- Inodes ----

  datatype Inode = Inode(name: Bytes, size: nat, flags: nat, blockCount: nat,
                         dataBlocks: seq<nat>, checksum: nat)
  {
    ghost predicate Fits() {
      && |name| == NAME_MAX && |dataBlocks| == MAX_BLOCKS
      && size < 0x1_0000_0000 && flags < 0x1_0000 && blockCount < 0x1_0000
      && checksum < 0x1_0000_0000
      && forall k :: 0 <= k < MAX_BLOCKS ==> dataBlocks[k] < 0x1_0000_0000
    }
    predicate IsDir() { flags % 2 == 1 }
  }

  function FlattenWords(ws: seq<nat>): (s: Bytes)
    ensures |s| == 4 * |ws|
  {
    if ws == [] then [] else Le(ws[0], 4) + FlattenWords(ws[1..])
  }

  lemma {:induction false} FlattenAt(ws: seq<nat>, k: nat)
    requires k < |ws|
    ensures FlattenWords(ws)[4 * k..4 * k + 4] == Le(ws[k], 4)
  {
    if k > 0 {
      FlattenAt(ws[1..], k - 1);
      assert FlattenWords(ws)[4 * k..4 * k + 4]
          == FlattenWords(ws[1..])[4 * (k - 1)..4 * (k - 1) + 4];
    }
  }

  function DecodeInode(b: Block): (i: Inode)
    ensures |i.dataBlocks| == MAX_BLOCKS && |i.name| == NAME_MAX
  {
    Inode(b[..64], FromLe(b[64..68]), FromLe(b[68..70]), FromLe(b[70..72]),
          seq(MAX_BLOCKS, k requires 0 <= k < MAX_BLOCKS => FromLe(b[72 + 4 * k..72 + 4 * k + 4])),
          FromLe(b[3672..3676]))
  }

  /** memcpy of the record over the front of a block. */
  function EncodeInode(b: Block, i: Inode): (r: Block)
    requires |i.name| == NAME_MAX && |i.dataBlocks| == MAX_BLOCKS
    ensures r[INODE_SIZE..] == b[INODE_SIZE..]
  {
    i.name + Le(i.size, 4) + Le(i.flags, 2) + Le(i.blockCount, 2)
    + FlattenWords(i.dataBlocks) + Le(i.checksum, 4) + b[INODE_SIZE..]
  }

  lemma InodeFieldsAt(b: Block, i: Inode)
    requires |i.name| == NAME_MAX && |i.dataBlocks| == MAX_BLOCKS
    ensures var r := EncodeInode(b, i);
            && r[..64] == i.name && r[64..68] == Le(i.size, 4)
            && r[68..70] == Le(i.flags, 2) && r[70..72] == Le(i.blockCount, 2)
            && r[72..3672] == FlattenWords(i.dataBlocks)
            && r[3672..3676] == Le(i.checksum, 4)
  {
  }

  lemma DataBlocksAt(b: Block, i: Inode, k: nat)
    requires |i.name| == NAME_MAX && |i.dataBlocks| == MAX_BLOCKS
    requires k < MAX_BLOCKS && i.dataBlocks[k] < 0x1_0000_0000
    ensures FromLe(EncodeInode(b, i)[72 + 4 * k..72 + 4 * k + 4]) == i.dataBlocks[k]
  {
    hide EncodeInode, FlattenWords, FromLe, Le, Pow256;
    var r := EncodeInode(b, i);
    InodeFieldsAt(b, i);
    FlattenAt(i.dataBlocks, k);
    SubSlice(r, 72, 3672, 4 * k, 4 * k + 4);
    Widths();
    LeRoundTrip(i.dataBlocks[k], 4);
  }

  lemma SubSlice(s: Bytes, a: nat, b: nat, c: nat, d: nat)
    requires a <= b <= |s| && c <= d <= b - a
    ensures s[a..b][c..d] == s[a + c..a + d]
  {
    var t := s[a..b];
    assert forall j :: c <= j < d ==> t[j] == s[a + j];
  }

  lemma ScalarsAt(b: Block, i: Inode)
    requires i.Fits()
    ensures var r := DecodeInode(EncodeInode(b, i));
            && r.name == i.name && r.size == i.size && r.flags == i.flags
            && r.blockCount == i.blockCount && r.checksum == i.checksum
  {
    InodeFieldsAt(b, i);
    Widths();
    LeRoundTrip(i.size, 4);
    LeRoundTrip(i.flags, 2);
    LeRoundTrip(i.blockCount, 2);
    LeRoundTrip(i.checksum, 4);
  }

  /** Reading back a written inode yields every field. */
  lemma InodeRoundTrip(b: Block, i: Inode)
    requires i.Fits()
    ensures DecodeInode(EncodeInode(b, i)) == i
  {
    ScalarsAt(b, i);
    var r := DecodeInode(EncodeInode(b, i));
    forall k | 0 <= k < MAX_BLOCKS
      ensures r.dataBlocks[k] == i.dataBlocks[k]
    {
      DataBlocksAt(b, i, k);
    }
    assert r.dataBlocks == i.dataBlocks;
  }

  lemma {:induction false} FromLeBound(s: Bytes)
    ensures FromLe(s) < Pow256(|s|)
  {
    if s != [] {
      FromLeBound(s[1..]);
    }
  }

  /** Every decoded record can be written back. */
  lemma DecodedFits(b: Block)
    ensures DecodeInode(b).Fits()
  {
    Widths();
    FromLeBound(b[64..68]);
    FromLeBound(b[68..70]);
    FromLeBound(b[70..72]);
    FromLeBound(b[3672..3676]);
    forall k | 0 <= k < MAX_BLOCKS
      ensures FromLe(b[72 + 4 * k..72 + 4 * k + 4]) < 0x1_0000_0000
    {
      FromLeBound(b[72 + 4 * k..72 + 4 * k + 4]);
    }
  }

  // ---- Directory entries ----

  function DentBase(d: nat): (o: nat)
    requires d < DENTS_PER_BLOCK
    ensures o + DIRENT_SIZE <= BLOCK_SIZE
  {
    DIRENT_SIZE * d
  }

  function DentName(b: Block, d: nat): Bytes
    requires d < DENTS_PER_BLOCK
  {
    var o := DentBase(d); CStr(b[o..o + 64])
  }

  function DentIno(b: Block, d: nat): nat
    requires d < DENTS_PER_BLOCK
  {
    var o := DentBase(d); FromLe(b[o + 64..o + 68])
  }

  /** The last byte of the name field; strncpy never writes it. */
  function DentTail(b: Block, d: nat): byte
    requires d < DENTS_PER_BLOCK
  {
    b[DentBase(d) + 63]
  }

  function DentSize(b: Block, d: nat): nat
    requires d < DENTS_PER_BLOCK
  {
    var o := DentBase(d); FromLe(b[o + 68..o + 72])
  }

  function DentFlags(b: Block, d: nat): nat
    requires d < DENTS_PER_BLOCK
  {
    var o := DentBase(d); FromLe(b[o + 72..o + 74])
  }

  /** What an update writes of one entry, around the byte that strncpy leaves alone. */
  function DentBytes(name: Bytes, tail: byte, ino: nat, flags: nat): (r: Bytes)
    ensures |r| == 74
  {
    PadName(name) + [tail] + Le(ino, 4) + Le(0, 4) + Le(flags, 2)
  }

  /** The in-place update of one entry: strncpy of the name, inode block, size 0, flags. */
  function PutDent(b: Block, d: nat, name: Bytes, ino: nat, flags: nat): Block
    requires d < DENTS_PER_BLOCK
  {
    var o := DentBase(d);
    b[..o] + DentBytes(name, b[o + 63], ino, flags) + b[o + 74..]
  }

  lemma {:induction false} DentFields(name: Bytes, tail: byte, ino: nat, flags: nat)
    ensures var r := DentBytes(name, tail, ino, flags);
            && r[..64] == PadName(name) + [tail] && r[64..68] == Le(ino, 4)
            && r[68..72] == Le(0, 4) && r[72..74] == Le(flags, 2)
  {
    hide Le, PadName;
  }

  lemma {:induction false} Between(a: Bytes, x: Bytes, c: Bytes, i: nat, j: nat)
    requires i <= j <= |x|
    ensures var r := a + x + c; r[..|a|] == a && r[|a| + |x|..] == c && r[|a| + i..|a| + j] == x[i..j]
  {
  }

  lemma {:induction false} PutDentBytes(b: Block, d: nat, name: Bytes, ino: nat, flags: nat)
    requires d < DENTS_PER_BLOCK
    ensures var o := DentBase(d); var r := PutDent(b, d, name, ino, flags);
            && r[..o] == b[..o] && r[o + DIRENT_SIZE..] == b[o + DIRENT_SIZE..]
            && r[o..o + 64] == PadName(name) + [b[o + 63]] && r[o + 64..o + 68] == Le(ino, 4)
            && r[o + 68..o + 72] == Le(0, 4) && r[o + 72..o + 74] == Le(flags, 2)
  {
    hide Le, PadName, DentBytes;
    var o := DentBase(d);
    var x, r := DentBytes(name, b[o + 63], ino, flags), PutDent(b, d, name, ino, flags);
    DentFields(name, b[o + 63], ino, flags);
    Between(b[..o], x, b[o + 74..], 0, 64);
    Between(b[..o], x, b[o + 74..], 64, 68);
    Between(b[..o], x, b[o + 74..], 68, 72);
    Between(b[..o], x, b[o + 74..], 72, 74);
    assert r[o + 74..] == b[o + 74..];
    assert r[o + DIRENT_SIZE..] == r[o + 74..][2..] && b[o + DIRENT_SIZE..] == b[o + 74..][2..];
  }

  /** What a reader of entry e sees. */
  predicate SameDent(b: Block, r: Block, e: nat)
    requires e < DENTS_PER_BLOCK
  {
    && DentName(r, e) == DentName(b, e) && DentIno(r, e) == DentIno(b, e) && DentTail(r, e) == DentTail(b, e)
    && DentSize(r, e) == DentSize(b, e) && DentFlags(r, e) == DentFlags(b, e)
  }

  /** Every field of the written entry reads back, and every other entry of the block is untouched. */
  lemma {:induction false} PutDentRoundTrip(b: Block, d: nat, name: Bytes, ino: nat, flags: nat)
    requires d < DENTS_PER_BLOCK
    requires |name| <= NAME_MAX - 1 && 0 !in name && ino < 0x1_0000_0000
    requires DentTail(b, d) == 0
    ensures var r := PutDent(b, d, name, ino, flags);
            && DentName(r, d) == name && DentIno(r, d) == ino && DentTail(r, d) == 0 && DentSize(r, d) == 0
            && (flags < 0x1_0000 ==> DentFlags(r, d) == flags)
            && forall e :: 0 <= e < DENTS_PER_BLOCK && e != d ==> SameDent(b, r, e)
  {
    hide PutDent, Le, PadName, CStr, FromLe;
    var o := DentBase(d);
    var r := PutDent(b, d, name, ino, flags);
    PutDentBytes(b, d, name, ino, flags);
    PadRoundTrip(name, b[o + 63]);
    Widths();
    LeRoundTrip(ino, 4);
    LeRoundTrip(0, 4);
    if flags < 0x1_0000 { LeRoundTrip(flags, 2); }
    assert r[o + 63] == r[o..o + 64][63];
    forall e | 0 <= e < DENTS_PER_BLOCK && e != d ensures SameDent(b, r, e) {
      SameOutside(b, r, d, e);
    }
  }

  lemma {:induction false} SameOutside(b: Block, r: Block, d: nat, e: nat)
    requires d < DENTS_PER_BLOCK && e < DENTS_PER_BLOCK && e != d
    requires r[..DentBase(d)] == b[..DentBase(d)]
    requires r[DentBase(d) + DIRENT_SIZE..] == b[DentBase(d) + DIRENT_SIZE..]
    ensures SameDent(b, r, e)
  {
    hide FromLe, CStr;
    var o, p := DentBase(d), DentBase(e);
    forall j | p <= j < p + DIRENT_SIZE ensures r[j] == b[j] {
      if e < d {
        assert r[..o][j] == b[..o][j];
      } else {
        var t := o + DIRENT_SIZE;
        assert r[t..][j - t] == b[t..][j - t];
      }
    }
    assert r[p..p + 64] == b[p..p + 64] && r[p + 64..p + 68] == b[p + 64..p + 68];
    assert r[p + 68..p + 72] == b[p + 68..p + 72] && r[p + 72..p + 74] == b[p + 72..p + 74];
  }

  // ---- Allocation bitmap ----

  /** (x >> k) & 1 */
  predicate Bit(x: nat, k: nat) {
    if k == 0 then x % 2 == 1 else Bit(x / 2, k - 1)
  }

  /** x | (1 << k) when used, x & ~(1 << k) otherwise */
  function WithBit(x: nat, k: nat, used: bool): (r: nat) {
    if k == 0 then 2 * (x / 2) + (if used then 1 else 0)
    else x % 2 + 2 * WithBit(x / 2, k - 1, used)
  }

  /** Writing one bit changes that bit and no other. */
  lemma {:induction false} WithBitEffect(x: nat, k: nat, used: bool, j: nat)
    ensures Bit(WithBit(x, k, used), j) == if j == k then used else Bit(x, j)
  {
    if k > 0 && j > 0 {
      WithBitEffect(x / 2, k - 1, used, j - 1);
    }
  }

  lemma {:induction false} WithBitInByte(x: nat, k: nat, used: bool, w: nat)
    requires k < w <= 8 && x < Exp2(w)
    ensures WithBit(x, k, used) < Exp2(w)
  {
    if k > 0 {
      WithBitInByte(x / 2, k - 1, used, w - 1);
    }
  }

  ghost function Exp2(n: nat): nat {
    if n == 0 then 1 else 2 * Exp2(n - 1)
  }

  lemma ByteWidth()
    ensures Exp2(8) == 256
  {
    assert Exp2(2) == 4;
    assert Exp2(4) == 16;
    assert Exp2(6) == 64;
  }
}

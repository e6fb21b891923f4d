/** The allocation bitmap and the fixed regions of the image. */
module XfsBitmap {
  import opened Basics
  import opened XfsCodec
  import opened XfsTree

  function BitmapBlocks(total: nat): nat {
    var n := (total + 8 * BLOCK_SIZE - 1) / (8 * BLOCK_SIZE);
    if n < 1 then 1 else n
  }

  function DataStart(total: nat): nat { 1 + BitmapBlocks(total) }

  function BitmapBlock(b: nat): nat { 1 + b / 8 / BLOCK_SIZE }
  function BitmapByte(b: nat): nat { b / 8 % BLOCK_SIZE }

  predicate Marked(disk: Disk, b: nat) {
    Bit(Sector(disk, BitmapBlock(b))[BitmapByte(b)], b % 8)
  }

  function MarkByte(x: byte, k: nat, used: bool): byte
    requires k < 8
  {
    ByteWidth();
    WithBitInByte(x, k, used, 8);
    WithBit(x, k, used)
  }

  function SetMark(disk: Disk, b: nat, used: bool): (disk': Disk)
    requires BitmapBlock(b) < |disk|
  {
    var s := disk[BitmapBlock(b)];
    disk[BitmapBlock(b) := s[BitmapByte(b) := MarkByte(s[BitmapByte(b)], b % 8, used)]]
  }

  /** Setting a block's bit changes the answer for that block and no other. */
  lemma SetMarkEffect(disk: Disk, b: nat, used: bool, c: nat)
    requires BitmapBlock(b) < |disk|
    ensures Marked(SetMark(disk, b, used), c) == if c == b then used else Marked(disk, c)
  {
    hide Bit, WithBit;
    if BitmapBlock(b) == BitmapBlock(c) && BitmapByte(b) == BitmapByte(c) {
      WithBitEffect(disk[BitmapBlock(b)][BitmapByte(b)], b % 8, used, c % 8);
      assert c / 8 == b / 8 by { SameByte(b / 8, c / 8); }
    }
  }

  lemma SameByte(x: nat, y: nat)
    requires x / BLOCK_SIZE == y / BLOCK_SIZE && x % BLOCK_SIZE == y % BLOCK_SIZE
    ensures x == y
  {
  }

  lemma BitmapInRange(total: nat, b: nat)
    requires b < total
    ensures 1 <= BitmapBlock(b) < DataStart(total)
  {
  }

  lemma RegionsFit(total: nat)
    requires total >= 4
    ensures DataStart(total) + 2 <= total
  {
  }

  /** The blocks in use are exactly the ones below nf. */
  ghost predicate Exact(disk: Disk, total: nat, nf: nat) {
    forall b :: 0 <= b < total ==> (Marked(disk, b) <==> b < nf)
  }

  lemma MarkNext(disk: Disk, total: nat, nf: nat)
    requires |disk| == total && nf < total && DataStart(total) <= total && Exact(disk, total, nf)
    ensures BitmapBlock(nf) < |disk|
    ensures Exact(SetMark(disk, nf, true), total, nf + 1)
    ensures forall b :: b >= DataStart(total) ==> Sector(SetMark(disk, nf, true), b) == Sector(disk, b)
  {
    hide Marked;
    BitmapInRange(total, nf);
    forall b | 0 <= b < total ensures Marked(SetMark(disk, nf, true), b) <==> b < nf + 1 {
      SetMarkEffect(disk, nf, true, b);
    }
  }

  lemma ExactFrame(disk: Disk, disk': Disk, total: nat, nf: nat)
    requires Exact(disk, total, nf)
    requires forall b :: 1 <= b < DataStart(total) ==> Sector(disk', b) == Sector(disk, b)
    ensures Exact(disk', total, nf)
  {
    hide Bit;
    forall b | 0 <= b < total ensures Marked(disk', b) <==> b < nf {
      BitmapInRange(total, b);
      assert Marked(disk', b) == Marked(disk, b);
    }
  }
}

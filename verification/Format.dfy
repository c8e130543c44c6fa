/** What formatting leaves on the disk, and the first sector of a new directory (partition_format and
    sys_mkdir in fs/fs.c, inode_init in fs/inode.c). */
module Formats {
  import opened Bitmaps
  import opened Disks
  import opened Inodes
  import opened Ownership
  import opened Files
  import opened Release
  import opened Dirs
  import opened DirOps
  import opened TreeOps

  /** The buffer with "." and ".." in its first two slots. */
  function NewDirSector(i: u32, p: u32): Sector {
    Splice(Splice(Zeros(SECTOR_SIZE), 0, EncodeEntry(DirEntry(".", i, FT_DIRECTORY))), ENTRY_SIZE, EncodeEntry(DirEntry("..", p, FT_DIRECTORY)))
  }

  function OneBlock(x: u32): BlockMap {
    EMPTY[0 := x]
  }

  lemma DotEntries(i: u32, p: u32)
    ensures DecodeEntry(EncodeEntry(DirEntry(".", i, FT_DIRECTORY))) == DirEntry(".", i, FT_DIRECTORY)
    ensures DecodeEntry(EncodeEntry(DirEntry("..", p, FT_DIRECTORY))) == DirEntry("..", p, FT_DIRECTORY)
  {
    hide DecodeEntry, EncodeEntry;
    EntryRoundTrip(DirEntry(".", i, FT_DIRECTORY));
    EntryRoundTrip(DirEntry("..", p, FT_DIRECTORY));
  }

  lemma NewDirEntries(i: u32, p: u32, k: nat)
    requires k < PER_SEC
    ensures EntryIn(NewDirSector(i, p), k) == NewDir(i, p)[k]
  {
    hide DecodeEntry, EncodeEntry, EntryIn, Splice;
    DotEntries(i, p);
    EmptySector(k);
    var sec: Sector := Splice(Zeros(SECTOR_SIZE), 0, EncodeEntry(DirEntry(".", i, FT_DIRECTORY)));
    EntrySpliced(Zeros(SECTOR_SIZE), 0, EncodeEntry(DirEntry(".", i, FT_DIRECTORY)), k);
    EntrySpliced(sec, 1, EncodeEntry(DirEntry("..", p, FT_DIRECTORY)), k);
  }

  /** One sector written this way is the whole of a new directory. */
  lemma NewDirSlots(a: seq<Sector>, x: u32, i: u32, p: u32, lo: nat, hi: nat)
    requires DirectMap(OneBlock(x), lo, hi) && hi <= |a| && 0 < x < |a| && a[x] == NewDirSector(i, p)
    ensures Slots(a, OneBlock(x)) == NewDir(i, p)
  {
    hide Slots, EntryIn, NewDirSector;
    var s, s' := NewDir(i, p), Slots(a, OneBlock(x));
    forall k | 0 <= k < SLOTS ensures s'[k] == s[k] {
      DirectSlot(a, OneBlock(x), lo, hi, k / PER_SEC, k % PER_SEC);
      if k < PER_SEC { NewDirEntries(i, p, k); }
    }
  }

  lemma OneBlockMap(x: u32, lo: nat, hi: nat)
    requires 0 < lo <= x < hi
    ensures DirectMap(OneBlock(x), lo, hi)
  {
  }

  lemma {:induction false} DotsOnlyLive(s: seq<DirEntry>, n: nat)
    requires 2 <= n <= |s| && s[0].Live() && s[1].Live() && forall j :: 2 <= j < |s| ==> !s[j].Live()
    ensures |LiveEntries(s[..n])| == 2
  {
    if n == 2 {
      assert s[..2][..1] == s[..1] && s[..1][..0] == [];
      assert LiveEntries(s[..1]) == [s[0]];
    } else {
      DotsOnlyLive(s, n - 1);
      assert s[..n][..n - 1] == s[..n - 1];
    }
  }

  /** A new directory of 48 bytes is well formed. */
  lemma NewDirIsDir(a: seq<Sector>, x: u32, i: u32, p: u32, lo: nat, hi: nat)
    requires 0 < lo <= x < hi <= |a| && a[x] == NewDirSector(i, p)
    ensures DirOk(a, InodeData(i, 2 * ENTRY_SIZE, OneBlock(x)), lo, hi) && Slots(a, OneBlock(x)) == NewDir(i, p)
  {
    hide Slots, NewDirSector, LiveEntries, SlotsOk, Apart;
    OneBlockMap(x, lo, hi);
    NewDirSlots(a, x, i, p, lo, hi);
    NewDirOk(i, p);
    DirectApart(a, OneBlock(x), lo, hi);
    var s := NewDir(i, p);
    DotsOnlyLive(s, |s|);
    assert s[..|s|] == s;
  }

  /** After formatting, the root owns the first data block, no other block is taken, and the root is
      an empty directory. */
  lemma FormatEstablishes(a: seq<Sector>, lo: nat, bits: seq<bool>)
    requires 0 < lo && lo < 0x1_0000_0000 && |bits| > 0 && lo + |bits| <= |a| && a[lo] == NewDirSector(0, 0)
    requires forall k :: 0 <= k < |bits| ==> (bits[k] <==> k == 0)
    ensures DirState(map[0 := OneBlock(lo)], a, bits, lo, InodeData(0, 2 * ENTRY_SIZE, OneBlock(lo)))
  {
    hide Slots, NewDirSector, DirOk, Apart, Blocks, Named;
    NewDirIsDir(a, lo, 0, 0, lo, lo + |bits|);
    OneBlockMap(lo, lo, lo + |bits|);
    var files: map<nat, BlockMap> := map[0 := OneBlock(lo)];
    DirectApart(a, OneBlock(lo), lo, lo + |bits|);
    OneBlockOwned(a, lo);
    var own := OwnMap(files, a);
    assert own[0] == {lo as int};
    forall i | 0 <= i < |bits| ensures bits[i] <==> Taken(own, lo + i) {
      if i == 0 { assert lo + i in own[0]; }
    }
  }

  lemma OneBlockOwned(a: seq<Sector>, x: u32)
    requires x != 0
    ensures Owned(a, OneBlock(x)) == {x as int}
  {
    hide Blocks, Named;
    DirectOwned(a, OneBlock(x));
    assert OneBlock(x)[0] == x;
  }

  // ----- the block bitmap that formatting writes

  const BITS_PER_SECTOR := 4096
  const SECTS_BEFORE := 2 + 1 + TABLE_SECTS  // boot sector, superblock, inode bitmap and inode table

  function DivRoundUp(x: nat, step: nat): nat
    requires step > 0
  {
    (x + step - 1) / step
  }

  /** How many blocks a partition of `secCnt` sectors is taken to have, and where they start. The
      number of bitmap sectors is computed twice. */
  function FormattedBlocks(secCnt: nat): nat
    requires secCnt > SECTS_BEFORE
  {
    secCnt - SECTS_BEFORE - DivRoundUp(secCnt - SECTS_BEFORE, BITS_PER_SECTOR)
  }

  function DataStart(startLba: nat, secCnt: nat): nat
    requires secCnt > SECTS_BEFORE
  {
    startLba + SECTS_BEFORE + DivRoundUp(FormattedBlocks(secCnt), BITS_PER_SECTOR)
  }

  /** The layout in sectors: boot sector, superblock, block bitmap, inode bitmap, inode table, data. The
      blocks are what is left after 611 sectors and a first estimate of the bitmap; the bitmap in fact
      is as long as these blocks need, so at most the estimate is left over at the partition's end. */
  lemma Regions(startLba: nat, secCnt: nat)
    requires secCnt > 611
    ensures secCnt > SECTS_BEFORE
    ensures var n := FormattedBlocks(secCnt);
            var estimate, b := secCnt - 611 - n, DataStart(startLba, secCnt) - startLba - 611;
            && 4096 * (estimate - 1) < secCnt - 611 <= 4096 * estimate && 4096 * (b - 1) < n <= 4096 * b && b <= estimate
            && DataStart(startLba, secCnt) == startLba + 2 + b + 1 + 608
            && DataStart(startLba, secCnt) + n == startLba + secCnt - (estimate - b)
  {
  }

  /** Byte `j` of the finished buffer. */
  ghost predicate MaskedByte(b: bv8, j: nat, lastByte: nat, lastBit: nat) {
    forall k: nat :: k < 8 ==> (TestBit(b, k) <==> (j == 0 < lastByte && k == 0) || j > lastByte || (j == lastByte && k > lastBit))
  }

  lemma PlainBytes(j: nat, lastByte: nat, lastBit: nat)
    requires j != lastByte
    ensures MaskedByte(if j > lastByte then 0xff else if j == 0 then 1 else 0, j, lastByte, lastBit)
  {
    forall k: nat | k < 8 { BitCases(k); }
  }

  lemma MaskedBits(bytes: seq<bv8>, n: nat, bitLen: nat)
    requires n <= |bytes| && forall j :: 0 <= j < n ==> MaskedByte(bytes[j], j, bitLen / 8, bitLen % 8)
    ensures forall i :: 0 <= i < 8 * n ==> (Unpack(bytes)[i] <==> (i == 0 && bitLen >= 8) || i > bitLen)
  {
    hide TestBit;
    forall i | 0 <= i < 8 * n ensures Unpack(bytes)[i] <==> (i == 0 && bitLen >= 8) || i > bitLen {
      assert MaskedByte(bytes[i / 8], i / 8, bitLen / 8, bitLen % 8);
      assert Unpack(bytes)[i] == TestBit(bytes[i / 8], i % 8);
    }
  }

  /** The lowest `n` bits are cleared, the others set. */
  ghost predicate LowCleared(b: bv8, n: nat) {
    forall k: nat :: k < 8 ==> (TestBit(b, k) <==> k >= n)
  }

  lemma FullStart()
    ensures LowCleared(0xff, 0)
  {
    forall k: nat | k < 8 { BitCases(k); }
  }

  lemma ClearNext(b: bv8, n: nat)
    requires LowCleared(b, n) && n < 8
    ensures LowCleared(b & !(BITMAP_MASK << n), n + 1)
  {
    hide TestBit;
    BitWritten(b, n);
  }

  lemma LastMasked(b: bv8, lastByte: nat, lastBit: nat)
    requires LowCleared(b, lastBit + 1)
    ensures MaskedByte(b, lastByte, lastByte, lastBit)
  {
    hide TestBit;
  }

  /** memset */
  method Fill(buf: array<bv8>, at: nat, b: bv8, size: nat)
    requires at + size <= buf.Length
    modifies buf
    ensures forall j :: 0 <= j < buf.Length ==> buf[j] == if at <= j < at + size then b else old(buf[j])
  {
    var i := 0;
    while i < size
      invariant i <= size
      invariant forall j :: 0 <= j < buf.Length ==> buf[j] == if at <= j < at + i then b else old(buf[j])
    {
      buf[at + i] := b;
      i := i + 1;
    }
  }

  /** Clears the bits up to and including `lastBit` of a full byte, one by one. */
  method ClearLow(buf: array<bv8>, at: nat, lastBit: nat)
    requires at < buf.Length && lastBit < 8 && buf[at] == 0xff
    modifies buf
    ensures LowCleared(buf[at], lastBit + 1) && forall j :: 0 <= j < buf.Length && j != at ==> buf[j] == old(buf[j])
  {
    hide LowCleared;
    FullStart();
    var bitIdx := 0;
    while bitIdx <= lastBit
      invariant bitIdx <= lastBit + 1 && LowCleared(buf[at], bitIdx)
      invariant forall j :: 0 <= j < buf.Length && j != at ==> buf[j] == old(buf[j])
    {
      ClearNext(buf[at], bitIdx);
      buf[at] := buf[at] & !(BITMAP_MASK << bitIdx);
      bitIdx := bitIdx + 1;
    }
  }

  /** The root's block is marked, and everything from the end of the blocks on; but the loop that
      clears the last byte's bits runs one bit too far, so the bit right behind the blocks is clear. */
  method FormatBlockBitmap(buf: array<bv8>, bitLen: nat)
    requires buf.Length % SECTOR_SIZE == 0 && bitLen / 8 < buf.Length && forall j :: 0 <= j < buf.Length ==> buf[j] == 0
    modifies buf
    ensures forall i :: 0 <= i < BITS_PER_SECTOR * DivRoundUp(bitLen, BITS_PER_SECTOR) && i < 8 * buf.Length ==>
                          (Unpack(buf[..])[i] <==> (i == 0 && bitLen >= 8) || i > bitLen)
  {
    hide TestBit, Unpack, MaskedByte, LowCleared;
    buf[0] := buf[0] | 1;
    var lastByte := bitLen / 8;
    var lastSize := SECTOR_SIZE - lastByte % SECTOR_SIZE;
    Fill(buf, lastByte, 0xff, lastSize);
    ClearLow(buf, lastByte, bitLen % 8);
    LastMasked(buf[lastByte], lastByte, bitLen % 8);
    forall j | 0 <= j < lastByte + lastSize && j != lastByte ensures MaskedByte(buf[j], j, lastByte, bitLen % 8) {
      PlainBytes(j, lastByte, bitLen % 8);
    }
    MaskedBits(buf[..], lastByte + lastSize, bitLen);
  }

  /** So one block too many is free. It is in the map unless the blocks fill the map's sectors, and
      its sector is the first one behind the partition unless the second computation of the map's
      size gave a smaller one. */
  lemma OneBlockTooMany(startLba: nat, secCnt: nat)
    requires secCnt > SECTS_BEFORE
    ensures var n, sects := FormattedBlocks(secCnt), DivRoundUp(FormattedBlocks(secCnt), BITS_PER_SECTOR);
            && (n < BITS_PER_SECTOR * sects <==> n % BITS_PER_SECTOR != 0)
            && (DataStart(startLba, secCnt) + n >= startLba + secCnt <==> sects == DivRoundUp(secCnt - SECTS_BEFORE, BITS_PER_SECTOR))
            && DataStart(startLba, secCnt) + n <= startLba + secCnt
  {
  }

  /** A new inode owns nothing and disturbs nothing. */
  lemma NewInodeAgrees(files: map<nat, BlockMap>, a: seq<Sector>, bits: seq<bool>, lo: nat, no: nat)
    requires Agree(files, a, bits, lo) && no !in files
    ensures Agree(files[no := EMPTY], a, bits, lo)
  {
    hide Blocks, Named, Apart;
    EmptyOwnsNothing(a, lo, lo + |bits|);
    var own, own' := OwnMap(files, a), OwnMap(files[no := EMPTY], a);
    assert own' == own[no := {}];
    forall x | Taken(own, x) ensures Taken(own', x) {
      var p :| p in own && x in own[p];
      assert p in own' && x in own'[p];
    }
  }

  /** A file just created is a well-formed file without contents. */
  lemma NewFileIsFile(a: seq<Sector>, no: u32, lo: nat, hi: nat)
    ensures FileOk(a, InodeData(no, 0, EMPTY), lo, hi) && Contents(a, InodeData(no, 0, EMPTY)) == []
  {
    hide Apart;
    EmptyOwnsNothing(a, lo, hi);
    DirectBlocks(a, EMPTY);
  }

  /** The middle of sys_mkdir: a free block becomes the new directory's first sector. */
  method MakeDirectory(part: Partition, inodeNo: u32, parentNo: u32, ghost files: map<nat, BlockMap>) returns (d: InodeData)
    requires part.Valid() && inodeNo != 0 && inodeNo as nat !in files && FreeCount(part.BlockBits()) > 0
    requires Agree(files, part.disk.sectors, part.BlockBits(), part.dataStart)
    modifies part.disk, part.blockBitmap.bits
    ensures part.Valid() && d.no == inodeNo && d.size == 2 * ENTRY_SIZE
    ensures Slots(part.disk.sectors, d.sectors) == NewDir(inodeNo, parentNo)
    ensures DirState(files[inodeNo as nat := d.sectors], part.disk.sectors, part.BlockBits(), part.dataStart, d)
    ensures OthersKept(files, inodeNo, old(part.disk.sectors), part.disk.sectors)
    ensures Table(part.disk.sectors, part.inodeTable) == Table(old(part.disk.sectors), part.inodeTable)
    ensures FreeCount(part.BlockBits()) + 1 == FreeCount(old(part.BlockBits()))
  {
    hide Table, Blocks, Slots, Agree, Unpack, FreeCount, IsFirstFit, NewDirSector, Grew, DirOk, OthersKept, NewDir, Masked;
    ghost var a, bits, lo := part.disk.sectors, part.BlockBits(), part.dataStart;
    NewInodeAgrees(files, a, bits, lo, inodeNo);
    GrewStart(bits, lo);
    var blockLba := BlockBitmapAlloc(part, bits, []);
    assert [] + [blockLba] == [blockLba];
    NotTheRoots(files, a, bits, lo, part.BlockBits(), blockLba);
    OneTaken(bits, part.BlockBits(), lo, blockLba);
    assert blockLba - part.dataStart != 0;
    part.disk.WriteSector(blockLba, NewDirSector(inodeNo, parentNo));
    TableElsewhere(a, part.disk.sectors, part.inodeTable);
    d := InodeData(inodeNo, 2 * ENTRY_SIZE, OneBlock(blockLba));
    NewDirIsDir(part.disk.sectors, blockLba, inodeNo, parentNo, lo, lo + |bits|);
    DirectoryAgrees(files, a, bits, lo, inodeNo, blockLba, part.disk.sectors, part.BlockBits());
  }

  lemma OneTaken(bits: seq<bool>, bits': seq<bool>, lo: nat, x: u32)
    requires Grew(bits, bits', lo, [x])
    ensures FreeCount(bits') + 1 == FreeCount(bits)
  {
    hide FreeCount;
  }

  lemma NotTheRoots(files: map<nat, BlockMap>, a: seq<Sector>, bits: seq<bool>, lo: nat, bits': seq<bool>, x: u32)
    requires Agree(files, a, bits, lo) && Grew(bits, bits', lo, [x])
    ensures lo < x < lo + |bits| && |bits'| == |bits| && lo + |bits| <= |a| && lo > 0
  {
    hide FreeCount;
    RootOwnsFirst(files, a, bits, lo);
    assert x in [x];
  }

  lemma DirectoryAgrees(files: map<nat, BlockMap>, a: seq<Sector>, bits: seq<bool>, lo: nat, no: nat, x: u32, a': seq<Sector>, bits': seq<bool>)
    requires Agree(files, a, bits, lo) && no !in files && no != 0 && Grew(bits, bits', lo, [x])
    requires |a| == |a'| && forall y :: 0 <= y < |a| && y != x ==> a'[y] == a[y]
    ensures Agree(files[no := OneBlock(x)], a', bits', lo) && OthersKept(files, no, a, a')
  {
    hide Blocks, Named, Apart, Agree, FreeCount, Grew;
    NotTheRoots(files, a, bits, lo, bits', x);
    NewInodeAgrees(files, a, bits, lo, no);
    EmptyOwnsNothing(a, lo, lo + |bits|);
    OneBlockOwned(a', x);
    OneBlockMap(x, lo, lo + |bits|);
    DirectApart(a', OneBlock(x), lo, lo + |bits|);
    var files1 := files[no := EMPTY];
    GrowthKeepsAgreement(files1, a, bits, lo, no, OneBlock(x), a', bits', [x]);
    assert files1[no := OneBlock(x)] == files[no := OneBlock(x)];
    forall p | p in files && p != no ensures KeptIn(files[p], a, a') { assert p in files1; }
  }
}

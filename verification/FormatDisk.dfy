/** Formatting a partition and mounting it: every invariant of the file system holds of the result
    (partition_format and mount_partition in fs/fs.c). */
module FormatDisk {
  import opened Bitmaps
  import opened Disks
  import opened Inodes
  import opened Ownership
  import opened Dirs
  import opened DirOps
  import opened TreeOps
  import opened TreeDisk
  import opened Formats

  /** How many blocks the finished map leaves unmasked: one more than there are, unless the blocks
      fill the map's sectors. */
  function Unmasked(bitLen: nat): (n: nat)
    ensures n <= BITS_PER_SECTOR * DivRoundUp(bitLen, BITS_PER_SECTOR) && (n == bitLen || n == bitLen + 1)
  {
    if bitLen % BITS_PER_SECTOR == 0 then bitLen else bitLen + 1
  }

  lemma FormattedMap(v: seq<bool>, bitLen: nat)
    requires |v| == BITS_PER_SECTOR * DivRoundUp(bitLen, BITS_PER_SECTOR) && bitLen >= 8
    requires forall i :: 0 <= i < |v| ==> (v[i] <==> i == 0 || i > bitLen)
    ensures Masked(v, Unmasked(bitLen)) && forall k :: 0 <= k < Unmasked(bitLen) ==> (v[..Unmasked(bitLen)][k] <==> k == 0)
  {
  }

  lemma UnpackPrefix(bytes: seq<bv8>, n: nat)
    requires n <= |bytes|
    ensures |Unpack(bytes)| == 8 * |bytes| && Unpack(bytes[..n]) == Unpack(bytes)[..8 * n]
  {
    hide TestBit;
  }

  lemma OneInode(bytes: seq<bv8>)
    requires |bytes| > 0 && bytes[0] == 1 && forall j :: 1 <= j < |bytes| ==> bytes[j] == 0
    ensures forall i :: 0 <= i < 8 * |bytes| ==> (Unpack(bytes)[i] <==> i == 0)
  {
    forall i | 0 <= i < 8 * |bytes| ensures Unpack(bytes)[i] <==> i == 0 {
      BitCases(i % 8);
      assert Unpack(bytes)[i] == TestBit(bytes[i / 8], i % 8);
    }
  }

  /** Record 0 of a table written from a buffer that begins with it. */
  lemma FirstRecord(a: seq<Sector>, t0: nat, record: seq<byte>)
    requires t0 + TABLE_SECTS <= |a| && |record| == INODE_SIZE
    ensures var b := Put(a, t0, Splice(Zeros(SECTOR_SIZE * TABLE_SECTS), 0, record), TABLE_SECTS); Table(b, t0)[0] == record
  {
    var buf := Splice(Zeros(SECTOR_SIZE * TABLE_SECTS), 0, record);
    var b := Put(a, t0, buf, TABLE_SECTS);
    forall j: nat | j < INODE_SIZE ensures Slot(b, t0, 0)[j] == record[j] {
      SlotByte(b, t0, 0, j);
      assert b[t0] == buf[0..SECTOR_SIZE];
    }
    assert Slot(b, t0, 0) == record;
  }

  method BlockMapBuffer(bitLen: nat, size: nat) returns (buf: array<bv8>)
    requires size % SECTOR_SIZE == 0 && bitLen / 8 < size && BITS_PER_SECTOR * DivRoundUp(bitLen, BITS_PER_SECTOR) <= 8 * size && bitLen >= 8
    ensures fresh(buf) && buf.Length == size
    ensures var n := SECTOR_SIZE * DivRoundUp(bitLen, BITS_PER_SECTOR);
            n <= size && Masked(Unpack(buf[..n]), Unmasked(bitLen)) &&
            forall k :: 0 <= k < Unmasked(bitLen) ==> (Unpack(buf[..n])[..Unmasked(bitLen)][k] <==> k == 0)
  {
    hide Unpack, TestBit, Masked;
    buf := new bv8[size](i => 0);
    FormatBlockBitmap(buf, bitLen);
    ghost var n := SECTOR_SIZE * DivRoundUp(bitLen, BITS_PER_SECTOR);
    UnpackPrefix(buf[..], n);
    assert buf[..][..n] == buf[..n];
    FormattedMap(Unpack(buf[..n]), bitLen);
  }

  /** The two maps as they are read back at mounting; `past` lies behind them in memory. The buffer
      is large enough for the byte that is masked last. */
  method FormatMaps(bitLen: nat, past: seq<bv8>) returns (blockBitmap: Bitmap, inodeBitmap: Bitmap)
    requires bitLen >= 8 && |past| == 2
    requires bitLen % BITS_PER_SECTOR != 0 || DivRoundUp(bitLen, BITS_PER_SECTOR) < TABLE_SECTS
    ensures fresh(blockBitmap) && fresh(inodeBitmap) && fresh(blockBitmap.bits) && fresh(inodeBitmap.bits)
    ensures blockBitmap.Valid() && inodeBitmap.Valid() && blockBitmap.bits != inodeBitmap.bits
    ensures blockBitmap.len == SECTOR_SIZE * DivRoundUp(bitLen, BITS_PER_SECTOR) && inodeBitmap.len == SECTOR_SIZE
    ensures Masked(blockBitmap.View(), Unmasked(bitLen))
    ensures forall k :: 0 <= k < Unmasked(bitLen) ==> (blockBitmap.View()[..Unmasked(bitLen)][k] <==> k == 0)
    ensures forall i :: 0 <= i < INODE_CNT ==> (inodeBitmap.View()[i] <==> i == 0)
  {
    hide Unpack, TestBit, Masked;
    var sects := DivRoundUp(bitLen, BITS_PER_SECTOR);
    var bufSects := if sects >= TABLE_SECTS then sects else TABLE_SECTS;
    var buf := BlockMapBuffer(bitLen, SECTOR_SIZE * bufSects);
    blockBitmap := new Bitmap.Over(buf[..SECTOR_SIZE * sects] + [past[0]]);
    assert (buf[..SECTOR_SIZE * sects] + [past[0]])[..SECTOR_SIZE * sects] == buf[..SECTOR_SIZE * sects];
    var inodeMap := seq(SECTOR_SIZE, i => if i == 0 then 1 as bv8 else 0);
    OneInode(inodeMap);
    inodeBitmap := new Bitmap.Over(inodeMap + [past[1]]);
    assert (inodeMap + [past[1]])[..SECTOR_SIZE] == inodeMap;
  }

  /** The root's record in front of an otherwise empty table, and the root's first sector. */
  method FormatRoot(disk: Disk, lo: u32)
    requires TABLE_SECTS < lo < |disk.sectors|
    modifies disk
    ensures |disk.sectors| == |old(disk.sectors)| && disk.sectors[lo] == NewDirSector(0, 0)
    ensures Table(disk.sectors, lo - TABLE_SECTS)[0] == EncodeInode(InodeData(0, 2 * ENTRY_SIZE, OneBlock(lo)))
  {
    hide Table, EncodeInode, Put, NewDirSector, Splice;
    var root := InodeData(0, 2 * ENTRY_SIZE, OneBlock(lo));
    FirstRecord(disk.sectors, lo - TABLE_SECTS, EncodeInode(root));
    disk.IdeWrite(lo - TABLE_SECTS, Splice(Zeros(SECTOR_SIZE * TABLE_SECTS), 0, EncodeInode(root)), TABLE_SECTS);
    ghost var a1 := disk.sectors;
    disk.WriteSector(lo, NewDirSector(0, 0));
    TableElsewhere(a1, disk.sectors, lo - TABLE_SECTS);
  }

  /** Formats the partition and mounts it; `past` lies behind the two maps in memory. The disk goes
      on behind the partition, and the buffer is large enough for the byte that is masked last. */
  method FormatAndMount(disk: Disk, startLba: nat, secCnt: nat, past: seq<bv8>) returns (part: Partition)
    requires secCnt > SECTS_BEFORE && FormattedBlocks(secCnt) >= 8 && |past| == 2
    requires FormattedBlocks(secCnt) % BITS_PER_SECTOR != 0 || DivRoundUp(FormattedBlocks(secCnt), BITS_PER_SECTOR) < TABLE_SECTS
    requires startLba + secCnt < |disk.sectors| < 0x1_0000_0000
    modifies disk
    ensures part.disk == disk && part.Valid() && part.CacheOk() && part.openInodes == []
    ensures var n, b := FormattedBlocks(secCnt), part.inodeTable - startLba - 3;
            && b >= 0 && 4096 * (b - 1) < n <= 4096 * b && part.blockBitmap.len == 512 * b && part.inodeBitmap.len == 512
            && part.dataStart == part.inodeTable + 608 && part.dataStart + n <= startLba + secCnt
            && part.blockCnt == if n % 4096 == 0 then n else n + 1
    ensures part.dataStart < 0x1_0000_0000
    ensures var root := InodeData(0, 2 * ENTRY_SIZE, OneBlock(part.dataStart));
            && Table(disk.sectors, part.inodeTable)[0] == EncodeInode(root)
            && DirState(map[0 := root.sectors], disk.sectors, part.BlockBits(), part.dataStart, root)
            && TreeOn(disk.sectors, map[0 := root.sectors]) == FORMATTED
    ensures forall i :: 0 <= i < INODE_CNT ==> (part.inodeBitmap.View()[i] <==> i == 0)
  {
    hide Unpack, TestBit, Masked, Table, EncodeInode, NewDirSector, DirState, Slots, EntryIn, Blocks;
    var bitLen := FormattedBlocks(secCnt);
    var lo := DataStart(startLba, secCnt);
    OneBlockTooMany(startLba, secCnt);
    Regions(startLba, secCnt);
    var blockBitmap, inodeBitmap := FormatMaps(bitLen, past);
    FormatRoot(disk, lo);
    part := new Partition(disk, blockBitmap, inodeBitmap, lo - TABLE_SECTS, Unmasked(bitLen));
    FormatEstablishes(disk.sectors, lo, part.BlockBits());
    RootSlots(disk.sectors, lo, part.BlockBits());
  }

  lemma RootSlots(a: seq<Sector>, lo: nat, bits: seq<bool>)
    requires 0 < lo < 0x1_0000_0000 && |bits| > 0 && lo + |bits| <= |a| && a[lo] == NewDirSector(0, 0)
    ensures TreeOn(a, map[0 := OneBlock(lo)]) == FORMATTED
  {
    hide Slots, NewDirSector, NewDir, DirOk;
    NewDirIsDir(a, lo, 0, 0, lo, lo + |bits|);
  }
}

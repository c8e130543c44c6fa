/** Inodes: the on-disk table whose records straddle sectors, and the reference-counted cache of
    open inodes (fs/inode.c). */
module Inodes {
  import opened Bitmaps
  import opened Disks

  const INODE_SIZE := 76
  const INODE_CNT := 4096
  const TABLE_SECTS := 608  // 4096 * 76 / 512

  type BlockMap = s: seq<u32> | |s| == 13 witness [0, 0, 0, 0, 0, 0, 0, 0, 0, 0, 0, 0, 0]

  /** The part of an inode that is meant to survive on disk. */
  datatype InodeData = InodeData(no: u32, size: u32, sectors: BlockMap)

  /** The record written to disk: number, size, open count, write_deny, block map, list links. */
  function EncodeInode(d: InodeData): (b: seq<byte>)
    ensures |b| == INODE_SIZE
  {
    EncodeWords([d.no, d.size, 0, 0] + d.sectors + [0, 0])
  }

  function DecodeInode(b: seq<byte>): InodeData
    requires |b| == INODE_SIZE
  {
    var ws := DecodeWords(b);
    InodeData(ws[0], ws[1], ws[4..17])
  }

  lemma InodeRoundTrip(d: InodeData)
    ensures DecodeInode(EncodeInode(d)) == d
  {
    var ws: seq<u32> := [d.no, d.size, 0, 0] + d.sectors + [0, 0];
    WordsRoundTrip(ws);
    assert ws[4..17] == d.sectors;
  }

  /** Where the fields lie in the record. Open count, write_deny and list links are cleared. */
  lemma RecordLayout(d: InodeData)
    ensures Word(EncodeInode(d), 0) == d.no && Word(EncodeInode(d), 1) == d.size
    ensures Word(EncodeInode(d), 2) == 0 && Word(EncodeInode(d), 3) == 0 && EncodeInode(d)[12] == 0
    ensures forall k: nat :: k < 13 ==> Word(EncodeInode(d), 4 + k) == d.sectors[k]
    ensures Word(EncodeInode(d), 17) == 0 && Word(EncodeInode(d), 18) == 0
  {
    hide EncodeWords, Word;
    var ws: seq<u32> := [d.no, d.size, 0, 0] + d.sectors + [0, 0];
    EncodedByte(ws, 3, 0);
    forall k: nat | k < 19 ensures Word(EncodeInode(d), k) == ws[k] { WordAt(ws, k); }
    forall k: nat | k < 13 ensures Word(EncodeInode(d), 4 + k) == d.sectors[k] { assert ws[4 + k] == d.sectors[k]; }
  }

  // ----- the table as an array of records

  function TableByte(sectors: seq<Sector>, t0: nat, p: nat): byte
    requires t0 + TABLE_SECTS <= |sectors| && p < INODE_SIZE * INODE_CNT
  {
    sectors[t0 + p / SECTOR_SIZE][p % SECTOR_SIZE]
  }

  function Slot(sectors: seq<Sector>, t0: nat, m: nat): (b: seq<byte>)
    requires t0 + TABLE_SECTS <= |sectors| && m < INODE_CNT
    ensures |b| == INODE_SIZE
  {
    seq<byte>(INODE_SIZE, j requires 0 <= j < INODE_SIZE => TableByte(sectors, t0, INODE_SIZE * m + j))
  }

  function Table(sectors: seq<Sector>, t0: nat): (t: seq<seq<byte>>)
    requires t0 + TABLE_SECTS <= |sectors|
    ensures |t| == INODE_CNT && forall m :: 0 <= m < INODE_CNT ==> |t[m]| == INODE_SIZE
  {
    seq(INODE_CNT, m requires 0 <= m < INODE_CNT => Slot(sectors, t0, m))
  }

  /** What lies outside the inode table. */
  ghost predicate SameOutsideTable(a: seq<Sector>, b: seq<Sector>, t0: nat) {
    |a| == |b| && forall k :: 0 <= k < |a| && !(t0 <= k < t0 + TABLE_SECTS) ==> a[k] == b[k]
  }

  /** The table is what its own sectors say. */
  lemma TableElsewhere(a: seq<Sector>, b: seq<Sector>, t0: nat)
    requires t0 + TABLE_SECTS <= |a| == |b| && forall k :: t0 <= k < t0 + TABLE_SECTS ==> b[k] == a[k]
    ensures Table(b, t0) == Table(a, t0)
  {
    forall m: nat | m < INODE_CNT ensures Slot(b, t0, m) == Slot(a, t0, m) {
      forall j: nat | j < INODE_SIZE ensures Slot(b, t0, m)[j] == Slot(a, t0, m)[j] {
        SlotByte(a, t0, m, j);
        SlotByte(b, t0, m, j);
      }
    }
  }

  datatype InodePosition = InodePosition(twoSec: bool, secLba: nat, offSize: nat)

  /** Record `no` lies in two sectors. */
  predicate Straddles(no: nat) {
    INODE_SIZE * no % SECTOR_SIZE > SECTOR_SIZE - INODE_SIZE
  }

  function Place(t0: nat, no: nat): (pos: InodePosition)
    requires no < INODE_CNT
    ensures pos.offSize + INODE_SIZE <= SECTOR_SIZE * Count(pos) && pos.secLba + Count(pos) <= t0 + TABLE_SECTS
    ensures t0 <= pos.secLba && SECTOR_SIZE * (pos.secLba - t0) + pos.offSize == INODE_SIZE * no && (pos.twoSec <==> Straddles(no))
  {
    InodePosition(Straddles(no), t0 + INODE_SIZE * no / SECTOR_SIZE, INODE_SIZE * no % SECTOR_SIZE)
  }

  function Count(pos: InodePosition): nat {
    if pos.twoSec then 2 else 1
  }

  /** Overrun: the caller's buffer is too short for two sectors. What follows depends on whom the
      memory behind it belongs to; `behind` is what it holds then. */
  datatype SyncResult = Synced | Overrun(behind: seq<byte>)

  /** What inode_sync has in its buffer before writing it back. */
  function SyncBuffer(sectors: seq<Sector>, t0: nat, d: InodeData): (b: seq<byte>)
    requires t0 + TABLE_SECTS <= |sectors|
    ensures |b| == if Straddles(d.no % 256) then 2 * SECTOR_SIZE else SECTOR_SIZE
  {
    var pos := Place(t0, d.no % 256);
    Splice(Bytes(sectors, pos.secLba, Count(pos)), pos.offSize, EncodeInode(d))
  }

  /** Where record `inodeNo` starts, and whether its last byte lies in the next sector. */
  method InodeLocate(inodeTableLba: nat, inodeNo: nat) returns (pos: InodePosition)
    requires inodeNo < INODE_CNT
    ensures pos.offSize < SECTOR_SIZE
    ensures SECTOR_SIZE * (pos.secLba - inodeTableLba) + pos.offSize == INODE_SIZE * inodeNo
    ensures pos.twoSec <==> INODE_SIZE * inodeNo / SECTOR_SIZE != (INODE_SIZE * inodeNo + INODE_SIZE - 1) / SECTOR_SIZE
    ensures inodeTableLba <= pos.secLba && pos.secLba + (if pos.twoSec then 2 else 1) <= inodeTableLba + TABLE_SECTS
    ensures pos.offSize + INODE_SIZE <= (if pos.twoSec then 2 * SECTOR_SIZE else SECTOR_SIZE) && pos == Place(inodeTableLba, inodeNo)
  {
    var offSize := inodeNo * INODE_SIZE;
    var offSec := offSize / 512;
    var offSizeInSec := offSize % 512;
    var leftInSec := 512 - offSizeInSec;
    pos := InodePosition(leftInSec < INODE_SIZE, inodeTableLba + offSec, offSizeInSec);
  }

  /** Records of different inodes never share a byte of the table. */
  lemma SlotsDisjoint(m: nat, n: nat, i: nat, j: nat)
    requires m != n && i < INODE_SIZE && j < INODE_SIZE
    ensures INODE_SIZE * m + i != INODE_SIZE * n + j
  {
    if m < n { assert INODE_SIZE * m + INODE_SIZE <= INODE_SIZE * n; }
    else { assert INODE_SIZE * n + INODE_SIZE <= INODE_SIZE * m; }
  }

  lemma PutAt(sectors: seq<Sector>, lba: nat, buf: seq<byte>, cnt: nat, k: nat, j: nat)
    requires lba + cnt <= |sectors| && |buf| == SECTOR_SIZE * cnt && k < |sectors| && j < SECTOR_SIZE
    ensures Put(sectors, lba, buf, cnt)[k][j] == if lba <= k < lba + cnt then buf[SECTOR_SIZE * (k - lba) + j] else sectors[k][j]
  {
  }

  lemma BytesAt(sectors: seq<Sector>, lba: nat, cnt: nat, k: nat, j: nat)
    requires lba <= k < lba + cnt <= |sectors| && j < SECTOR_SIZE
    ensures Bytes(sectors, lba, cnt)[SECTOR_SIZE * (k - lba) + j] == sectors[k][j]
  {
    var p := SECTOR_SIZE * (k - lba) + j;
    assert p / SECTOR_SIZE == k - lba && p % SECTOR_SIZE == j;
  }

  /** Reading `cnt` sectors, overwriting `data` at `off`, and writing them back changes just those
      bytes of the disk. */
  lemma PatchBytes(sectors: seq<Sector>, lba: nat, cnt: nat, off: nat, data: seq<byte>, k: nat, j: nat)
    requires lba + cnt <= |sectors| && off + |data| <= SECTOR_SIZE * cnt
    requires k < |sectors| && j < SECTOR_SIZE
    ensures var p := SECTOR_SIZE * (k - lba) + j;
            Put(sectors, lba, Splice(Bytes(sectors, lba, cnt), off, data), cnt)[k][j]
              == if off <= p < off + |data| then data[p - off] else sectors[k][j]
  {
    hide Put, Bytes;
    PutAt(sectors, lba, Splice(Bytes(sectors, lba, cnt), off, data), cnt, k, j);
    if lba <= k < lba + cnt { BytesAt(sectors, lba, cnt, k, j); }
  }

  lemma SlotByte(s: seq<Sector>, t0: nat, m: nat, j: nat)
    requires t0 + TABLE_SECTS <= |s| && m < INODE_CNT && j < INODE_SIZE
    ensures var p := INODE_SIZE * m + j;
            p < INODE_SIZE * INODE_CNT && Slot(s, t0, m)[j] == s[t0 + p / SECTOR_SIZE][p % SECTOR_SIZE]
  {
    var p := INODE_SIZE * m + j;
    assert Slot(s, t0, m)[j] == TableByte(s, t0, p);
  }

  lemma PatchSlotByte(a: seq<Sector>, t0: nat, n: nat, lba: nat, cnt: nat, off: nat, data: seq<byte>, m: nat, j: nat)
    requires t0 + TABLE_SECTS <= |a| && n < INODE_CNT && |data| == INODE_SIZE && m < INODE_CNT && j < INODE_SIZE
    requires t0 <= lba && lba + cnt <= t0 + TABLE_SECTS && off + INODE_SIZE <= SECTOR_SIZE * cnt
    requires SECTOR_SIZE * (lba - t0) + off == INODE_SIZE * n
    ensures var b := Put(a, lba, Splice(Bytes(a, lba, cnt), off, data), cnt);
            Slot(b, t0, m)[j] == if m == n then data[j] else Slot(a, t0, m)[j]
  {
    hide Put, Splice, Bytes, Slot;
    var b := Put(a, lba, Splice(Bytes(a, lba, cnt), off, data), cnt);
    var p := INODE_SIZE * m + j;
    PatchBytes(a, lba, cnt, off, data, t0 + p / SECTOR_SIZE, p % SECTOR_SIZE);
    var q := SECTOR_SIZE * (t0 + p / SECTOR_SIZE - lba) + p % SECTOR_SIZE;
    assert p == SECTOR_SIZE * (p / SECTOR_SIZE) + p % SECTOR_SIZE;
    assert q - off == INODE_SIZE * m + j - INODE_SIZE * n;
    SlotByte(b, t0, m, j);
    SlotByte(a, t0, m, j);
    if m != n && off <= q < off + INODE_SIZE {
      SlotsDisjoint(m, n, j, q - off);
    }
  }

  lemma PatchTable(a: seq<Sector>, b: seq<Sector>, t0: nat, n: nat, lba: nat, cnt: nat, off: nat, data: seq<byte>)
    requires t0 + TABLE_SECTS <= |a| && n < INODE_CNT && |data| == INODE_SIZE
    requires t0 <= lba && lba + cnt <= t0 + TABLE_SECTS && off + INODE_SIZE <= SECTOR_SIZE * cnt
    requires SECTOR_SIZE * (lba - t0) + off == INODE_SIZE * n
    requires b == Put(a, lba, Splice(Bytes(a, lba, cnt), off, data), cnt)
    ensures SameOutsideTable(a, b, t0) && Table(b, t0) == Table(a, t0)[n := data]
  {
    forall m: nat | m < INODE_CNT ensures Slot(b, t0, m) == if m == n then data else Slot(a, t0, m) {
      var want := if m == n then data else Slot(a, t0, m);
      forall j: nat | j < INODE_SIZE ensures Slot(b, t0, m)[j] == want[j] {
        PatchSlotByte(a, t0, n, lba, cnt, off, data, m, j);
      }
    }
  }

  /** inode_sync keeps the number in eight bits. So a record comes back under its own number
      exactly when the number is below 256, or the slot already held that very record. */
  lemma SyncedRecordComesBack(t: seq<seq<byte>>, d: InodeData)
    requires |t| == INODE_CNT && (forall m :: 0 <= m < INODE_CNT ==> |t[m]| == INODE_SIZE) && d.no < INODE_CNT
    ensures DecodeInode(t[d.no % 256 := EncodeInode(d)][d.no]) == d <==> d.no < 256 || DecodeInode(t[d.no]) == d
  {
    hide DecodeInode, EncodeInode;
    InodeRoundTrip(d);
  }

  /** From 256 on, syncing one inode destroys the record of another: 256 overwrites the root's. */
  lemma SyncAliases(t: seq<seq<byte>>, root: InodeData, d: InodeData)
    requires |t| == INODE_CNT && (forall m :: 0 <= m < INODE_CNT ==> |t[m]| == INODE_SIZE)
    requires root.no == 0 && DecodeInode(t[0]) == root && d.no == 256
    ensures DecodeInode(t[d.no % 256 := EncodeInode(d)][0]) != root
  {
    hide DecodeInode, EncodeInode;
    InodeRoundTrip(d);
  }

  class Inode {
    var iNo: u32
    var iSize: u32
    var iOpenCnts: int
    var writeDeny: bool
    var iSectors: BlockMap

    function Data(): InodeData
      reads this
    {
      InodeData(iNo, iSize, iSectors)
    }

    /** memcpy of a disk record into a fresh inode; the open count is set by the caller. */
    constructor FromRecord(record: seq<byte>)
      requires |record| == INODE_SIZE
      ensures Data() == DecodeInode(record) && iOpenCnts == 1 && (writeDeny <==> record[12] != 0)
    {
      var d := DecodeInode(record);
      iNo, iSize, iSectors := d.no, d.size, d.sectors;
      iOpenCnts, writeDeny := 1, record[12] != 0;  // a bool is one byte
    }

    /** inode_init */
    constructor Init(inodeNo: u32)
      ensures Data() == InodeData(inodeNo, 0, seq(13, i => 0)) && iOpenCnts == 0 && !writeDeny
    {
      iNo, iSize, iOpenCnts, writeDeny := inodeNo, 0, 0, false;
      iSectors := seq(13, i => 0);
    }
  }

  ghost predicate Without<T>(s: seq<T>, k: int, e: T, t: seq<T>) {
    0 <= k < |s| && s[k] == e && t == s[..k] + s[k + 1..]
  }

  /** Behind its first `n` bits a map is all set. */
  ghost predicate Masked(v: seq<bool>, n: nat) {
    forall i :: n <= i < |v| ==> v[i]
  }

  class Partition {
    const disk: Disk
    const blockBitmap: Bitmap
    const inodeBitmap: Bitmap
    const inodeTable: nat  // sb.inode_table_lba
    const dataStart: nat   // sb.data_start_lba
    ghost const blockCnt: nat  // the bits of the block bitmap that formatting left unmasked
    var openInodes: seq<Inode>

    /** The block bitmap without the tail that is set for good. */
    ghost function BlockBits(): (s: seq<bool>)
      requires blockBitmap.Valid() && blockCnt <= 8 * blockBitmap.len
      reads blockBitmap.bits
      ensures |s| == blockCnt
    {
      blockBitmap.View()[..blockCnt]
    }

    /** A formatted partition: the data area follows the inode table, and every bit of the block
        bitmap stands for a sector of the disk or is masked. */
    ghost predicate Valid()
      reads disk, blockBitmap.bits
    {
      && blockBitmap.Valid() && inodeBitmap.Valid() && blockBitmap.bits != inodeBitmap.bits
      && 0 < inodeTable && dataStart == inodeTable + TABLE_SECTS
      && 8 * inodeBitmap.len == INODE_CNT
      && blockCnt <= 8 * blockBitmap.len && Masked(blockBitmap.View(), blockCnt)
      && dataStart + blockCnt <= |disk.sectors| < 0x1_0000_0000
    }

    /** Every cached inode is in use and cached once. */
    ghost predicate CacheOk()
      reads this, openInodes
    {
      && (forall i :: 0 <= i < |openInodes| ==> openInodes[i].iOpenCnts >= 1)
      && (forall i, j :: 0 <= i < j < |openInodes| ==>
            openInodes[i] != openInodes[j] && openInodes[i].iNo != openInodes[j].iNo)
    }

    /** Mounting: the bitmaps have been read in, no inode is open. */
    constructor (disk: Disk, blockBitmap: Bitmap, inodeBitmap: Bitmap, inodeTable: nat, ghost blockCnt: nat)
      ensures this.disk == disk && this.blockBitmap == blockBitmap && this.inodeBitmap == inodeBitmap && this.blockCnt == blockCnt
      ensures this.inodeTable == inodeTable && dataStart == inodeTable + TABLE_SECTS && openInodes == [] && CacheOk()
    {
      this.disk, this.blockBitmap, this.inodeBitmap, this.blockCnt := disk, blockBitmap, inodeBitmap, blockCnt;
      this.inodeTable, dataStart, openInodes := inodeTable, inodeTable + TABLE_SECTS, [];
    }

    /** The buffer is the caller's: one sector is enough for it unless the record straddles two. */
    method InodeSync(inode: Inode, ioBufSize: nat) returns (r: SyncResult)
      requires Valid() && inode.iNo < INODE_CNT && ioBufSize >= SECTOR_SIZE
      modifies disk
      ensures r.Overrun? <==> Straddles(inode.iNo % 256) && ioBufSize < 2 * SECTOR_SIZE
      ensures r.Overrun? ==> disk.sectors == old(disk.sectors) && r.behind == SyncBuffer(disk.sectors, inodeTable, inode.Data())[ioBufSize..]
      ensures Valid() && SameOutsideTable(old(disk.sectors), disk.sectors, inodeTable)
      ensures r.Synced? ==>
                Table(disk.sectors, inodeTable) == Table(old(disk.sectors), inodeTable)[inode.iNo % 256 := EncodeInode(inode.Data())]
    {
      hide Table, Bytes, Put, EncodeInode, Straddles, Splice, Unpack, Place;
      var inodeNo := inode.iNo % 256;  // uint8_t
      var pos := InodeLocate(inodeTable, inodeNo);
      var pureInode := EncodeInode(inode.Data());
      var cnt := if pos.twoSec then 2 else 1;
      var inodeBuf := disk.IdeRead(pos.secLba, cnt);
      inodeBuf := Splice(inodeBuf, pos.offSize, pureInode);
      if |inodeBuf| > ioBufSize {
        return Overrun(inodeBuf[ioBufSize..]);
      }
      disk.IdeWrite(pos.secLba, inodeBuf, cnt);
      PatchTable(old(disk.sectors), disk.sectors, inodeTable, inodeNo, pos.secLba, cnt, pos.offSize, pureInode);
      r := Synced;
    }

    /** A cached inode is shared; otherwise the record is read from the table. */
    method InodeOpen(inodeNo: nat) returns (inode: Inode)
      requires Valid() && CacheOk() && inodeNo < INODE_CNT
      modifies this`openInodes, openInodes
      ensures inode in old(openInodes) ==>
                old(inode.iNo) == inodeNo && openInodes == old(openInodes) && inode.iOpenCnts == old(inode.iOpenCnts) + 1 >= 2
      ensures inode !in old(openInodes) ==>
                (forall e :: e in old(openInodes) ==> old(e.iNo) != inodeNo) && fresh(inode) &&
                openInodes == [inode] + old(openInodes) && inode.iOpenCnts == 1 &&
                inode.Data() == DecodeInode(Table(disk.sectors, inodeTable)[inodeNo]) &&
                (inode.writeDeny <==> Table(disk.sectors, inodeTable)[inodeNo][12] != 0)
      ensures inode in openInodes && (inode.iNo == inodeNo ==> CacheOk())
      ensures forall e :: e in old(openInodes) ==>
                e.Data() == old(e.Data()) && e.writeDeny == old(e.writeDeny) && (e != inode ==> e.iOpenCnts == old(e.iOpenCnts))
    {
      hide Table, Slot, DecodeInode, Bytes;
      var k := FindOpen(inodeNo);
      if k < |openInodes| {
        inode := openInodes[k];
        inode.iOpenCnts := inode.iOpenCnts + 1;
        return;
      }
      var pos := InodeLocate(inodeTable, inodeNo);
      var cnt := if pos.twoSec then 2 else 1;
      var inodeBuf := disk.IdeRead(pos.secLba, cnt);
      RecordRead(disk.sectors, inodeTable, inodeNo, pos.secLba, cnt, pos.offSize);
      inode := new Inode.FromRecord(inodeBuf[pos.offSize..pos.offSize + INODE_SIZE]);
      openInodes := [inode] + openInodes;
    }

    /** The walk over the open list: the position of the inode, or the length of the list. */
    method FindOpen(inodeNo: nat) returns (k: nat)
      ensures k <= |openInodes| && (k < |openInodes| ==> openInodes[k].iNo == inodeNo)
      ensures forall i :: 0 <= i < k ==> openInodes[i].iNo != inodeNo
    {
      k := 0;
      while k < |openInodes|
        invariant k <= |openInodes|
        invariant forall i :: 0 <= i < k ==> openInodes[i].iNo != inodeNo
      {
        if openInodes[k].iNo == inodeNo {
          return;
        }
        k := k + 1;
      }
    }

    /** The last close drops the inode from the cache. */
    method InodeClose(inode: Inode)
      requires CacheOk() && inode in openInodes
      modifies this`openInodes, inode`iOpenCnts
      ensures CacheOk()
      ensures inode.iOpenCnts == old(inode.iOpenCnts) - 1
      ensures old(inode.iOpenCnts) > 1 ==> openInodes == old(openInodes)
      ensures old(inode.iOpenCnts) == 1 ==> inode !in openInodes && exists k :: Without(old(openInodes), k, inode, openInodes)
    {
      inode.iOpenCnts := inode.iOpenCnts - 1;
      if inode.iOpenCnts == 0 {
        ghost var k :| 0 <= k < |openInodes| && openInodes[k] == inode;
        var i := 0;
        while openInodes[i] != inode
          invariant 0 <= i <= k
          decreases k - i
        {
          i := i + 1;
        }
        openInodes := openInodes[..i] + openInodes[i + 1..];
        assert Without(old(openInodes), i, inode, openInodes);
      }
    }
  }

  lemma RecordRead(sectors: seq<Sector>, t0: nat, n: nat, lba: nat, cnt: nat, off: nat)
    requires t0 + TABLE_SECTS <= |sectors| && n < INODE_CNT
    requires t0 <= lba && lba + cnt <= t0 + TABLE_SECTS && off + INODE_SIZE <= SECTOR_SIZE * cnt
    requires SECTOR_SIZE * (lba - t0) + off == INODE_SIZE * n
    ensures Bytes(sectors, lba, cnt)[off..off + INODE_SIZE] == Table(sectors, t0)[n]
  {
    var b := Bytes(sectors, lba, cnt)[off..off + INODE_SIZE];
    forall j: nat | j < INODE_SIZE ensures b[j] == Slot(sectors, t0, n)[j] {
      var p := INODE_SIZE * n + j;
      var q := p - SECTOR_SIZE * (lba - t0);
      SlotByte(sectors, t0, n, j);
      assert p == SECTOR_SIZE * (p / SECTOR_SIZE) + p % SECTOR_SIZE;
      assert b[j] == Bytes(sectors, lba, cnt)[q];
      assert q / SECTOR_SIZE == p / SECTOR_SIZE - (lba - t0) && q % SECTOR_SIZE == p % SECTOR_SIZE;
    }
  }
}

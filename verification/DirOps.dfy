/** The directory operations over the slots of a directory (fs/dir.c). */
module DirOps {
  import opened Bitmaps
  import opened Disks
  import opened Inodes
  import opened Ownership
  import opened Dirs
  import opened Util

  // ----- slots and sectors

  /** Every block the map names lies on the disk. */
  ghost predicate Readable(a: seq<Sector>, m: BlockMap) {
    m[12] < |a| && forall k :: 0 <= k < ALL_BLOCKS ==> Blocks(a, m)[k] < |a|
  }

  lemma SlotIn(a: seq<Sector>, m: BlockMap, j: nat, i: nat)
    requires j < ALL_BLOCKS && i < PER_SEC && Readable(a, m)
    ensures PER_SEC * j + i < SLOTS
    ensures Slots(a, m)[PER_SEC * j + i] == if Blocks(a, m)[j] == 0 then DEAD else EntryIn(a[Blocks(a, m)[j]], i)
  {
    hide Blocks, EntryIn;
    var k := PER_SEC * j + i;
    assert k / PER_SEC == j && k % PER_SEC == i;
    assert Slots(a, m)[k] == SlotAt(a, Blocks(a, m), k);
  }

  /** A slot is 24 bytes of one sector, 21 to a sector, in the order of the blocks. */
  lemma SlotLayout(a: seq<Sector>, m: BlockMap, j: nat, i: nat)
    requires j < 140 && i < 21 && Readable(a, m)
    ensures |Slots(a, m)| == 2940 && 21 * j + i < 2940
    ensures Slots(a, m)[21 * j + i]
         == if Blocks(a, m)[j] == 0 then DirEntry("", 0, 0) else DecodeEntry(a[Blocks(a, m)[j]][24 * i..24 * i + 24])
  {
    hide Slots, Blocks, DecodeEntry;
    SlotIn(a, m, j, i);
  }

  lemma FirstIs(s: seq<DirEntry>, name: string, k: nat)
    requires k < |s| && s[k].name == name && forall i :: 0 <= i < k ==> s[i].name != name
    ensures First(s, name) == k
  {
  }

  // ----- search_dir_entry

  /** The first slot holding the name, live or not, over all 140 blocks. */
  method SearchDirEntry(part: Partition, dir: Inode, name: string) returns (found: Option<DirEntry>)
    requires part.Valid() && Readable(part.disk.sectors, dir.iSectors) && 0 < |name| < ENTRY_SIZE
    ensures var s := Slots(part.disk.sectors, dir.iSectors);
            found == if First(s, name) == -1 then None else Some(s[First(s, name)])
  {
    hide Blocks, Slots, EntryIn, First, DecodeWords;
    ghost var a, m := part.disk.sectors, dir.iSectors;
    ghost var s := Slots(a, m);
    BlocksAre(a, m);
    var allBlocks := dir.iSectors[..12] + NoBlocks(128);
    if dir.iSectors[12] != 0 {
      var table := part.disk.ReadSector(dir.iSectors[12]);
      allBlocks := dir.iSectors[..12] + DecodeWords(table);
    }
    var blockIdx := 0;
    while blockIdx < 140
      invariant blockIdx <= 140
      invariant forall i :: 0 <= i < PER_SEC * blockIdx ==> s[i].name != name
    {
      if allBlocks[blockIdx] == 0 {
        forall i | PER_SEC * blockIdx <= i < PER_SEC * blockIdx + PER_SEC ensures s[i].name != name {
          SlotIn(a, m, blockIdx, i - PER_SEC * blockIdx);
        }
        blockIdx := blockIdx + 1;
        continue;
      }
      var buf := part.disk.ReadSector(allBlocks[blockIdx]);
      var dirEntryIdx := 0;
      while dirEntryIdx < PER_SEC
        invariant dirEntryIdx <= PER_SEC
        invariant forall i :: 0 <= i < PER_SEC * blockIdx + dirEntryIdx ==> s[i].name != name
      {
        var pDe := EntryIn(buf, dirEntryIdx);
        SlotIn(a, m, blockIdx, dirEntryIdx);
        if pDe.name == name {
          FirstIs(s, name, PER_SEC * blockIdx + dirEntryIdx);
          return Some(pDe);
        }
        dirEntryIdx := dirEntryIdx + 1;
      }
      blockIdx := blockIdx + 1;
    }
    return None;
  }

  // ----- what writing a sector does to the slots

  lemma EntrySpliced(sec: Sector, i: nat, b: seq<byte>, x: nat)
    requires i < PER_SEC && x < PER_SEC && |b| == ENTRY_SIZE
    ensures EntryIn(Splice(sec, ENTRY_SIZE * i, b), x) == if x == i then DecodeEntry(b) else EntryIn(sec, x)
  {
    hide DecodeEntry;
    var r := Splice(sec, ENTRY_SIZE * i, b);
    var lo, hi := ENTRY_SIZE * x, ENTRY_SIZE * x + ENTRY_SIZE;
    if x == i {
      assert r[lo..hi] == b;
    } else {
      assert r[lo..hi] == sec[lo..hi];
    }
  }

  lemma EmptySector(i: nat)
    requires i < PER_SEC
    ensures EntryIn(Zeros(SECTOR_SIZE), i) == DEAD
  {
    ZeroEntry(Zeros(SECTOR_SIZE)[ENTRY_SIZE * i..ENTRY_SIZE * i + ENTRY_SIZE]);
  }

  lemma DeadBytes()
    ensures DecodeEntry(Zeros(ENTRY_SIZE)) == DEAD
  {
    ZeroEntry(Zeros(ENTRY_SIZE));
  }

  /** A block map of direct blocks only, each in the data area and none named twice. */
  ghost predicate DirectMap(m: BlockMap, lo: nat, hi: nat) {
    && m[12] == 0 && 0 < lo <= hi
    && (forall k :: 0 <= k < DIRECT && m[k] != 0 ==> lo <= m[k] < hi)
    && forall j, k :: 0 <= j < k < DIRECT && m[j] != 0 ==> m[j] != m[k]
  }

  lemma DirectBlocks(a: seq<Sector>, m: BlockMap)
    requires m[12] == 0
    ensures forall k :: 0 <= k < ALL_BLOCKS ==> Blocks(a, m)[k] == if k < DIRECT then m[k] else 0
  {
    BlocksAre(a, m);
  }

  lemma DirectMapIs(a: seq<Sector>, m: BlockMap, lo: nat, hi: nat)
    requires m[12] == 0 && 0 < lo <= hi
    ensures DirectMap(m, lo, hi) <==> Apart(Blocks(a, m), 0, lo, hi)
    ensures DirectMap(m, lo, hi) && hi <= |a| ==> Readable(a, m)
  {
    hide Blocks;
    DirectBlocks(a, m);
    var b := Blocks(a, m);
    if Apart(b, 0, lo, hi) {
      forall k | 0 <= k < DIRECT ensures m[k] == b[k] {}
    }
  }

  lemma DirectApart(a: seq<Sector>, m: BlockMap, lo: nat, hi: nat)
    requires DirectMap(m, lo, hi) && hi <= |a|
    ensures m[12] == 0 && 0 < lo <= hi && Apart(Blocks(a, m), 0, lo, hi) && Readable(a, m)
  {
    hide Blocks, Apart;
    DirectMapIs(a, m, lo, hi);
  }

  lemma DirectOwned(a: seq<Sector>, m: BlockMap)
    requires m[12] == 0
    ensures forall x: int :: x in Owned(a, m) <==> x != 0 && exists k :: 0 <= k < DIRECT && m[k] == x
  {
    hide Blocks;
    DirectBlocks(a, m);
    var b := Blocks(a, m);
    forall k | 0 <= k < DIRECT ensures m[k] == b[k] {}
  }

  lemma DirectSlot(a: seq<Sector>, m: BlockMap, lo: nat, hi: nat, j: nat, i: nat)
    requires DirectMap(m, lo, hi) && hi <= |a| && j < ALL_BLOCKS && i < PER_SEC
    ensures PER_SEC * j + i < SLOTS && (j < DIRECT ==> m[j] < |a|)
    ensures Slots(a, m)[PER_SEC * j + i] == if j >= DIRECT || m[j] == 0 then DEAD else EntryIn(a[m[j]], i)
  {
    hide Slots, EntryIn, Apart;
    DirectMapIs(a, m, lo, hi);
    BlocksAre(a, m);
    SlotIn(a, m, j, i);
  }

  lemma DirectMapEntry(m: BlockMap, lo: nat, hi: nat, j: nat)
    requires DirectMap(m, lo, hi) && j < DIRECT && m[j] != 0
    ensures lo <= m[j] < hi
  {
  }

  /** Rewriting one slot of one sector rewrites that slot of the directory. */
  lemma SectorWritten(a: seq<Sector>, m: BlockMap, lo: nat, hi: nat, j: nat, i: nat, b: seq<byte>, a': seq<Sector>)
    requires DirectMap(m, lo, hi) && hi <= |a| && j < DIRECT && i < PER_SEC && |b| == ENTRY_SIZE
    requires m[j] != 0 && m[j] < |a| && a' == a[m[j] := Splice(a[m[j]], ENTRY_SIZE * i, b)]
    ensures Slots(a', m) == Slots(a, m)[PER_SEC * j + i := DecodeEntry(b)]
  {
    hide Slots, EntryIn, DecodeEntry;
    var s, s' := Slots(a, m)[PER_SEC * j + i := DecodeEntry(b)], Slots(a', m);
    forall k | 0 <= k < SLOTS ensures s'[k] == s[k] {
      DirectSlot(a, m, lo, hi, k / PER_SEC, k % PER_SEC);
      DirectSlot(a', m, lo, hi, k / PER_SEC, k % PER_SEC);
      if k / PER_SEC == j {
        EntrySpliced(a[m[j]], i, b, k % PER_SEC);
      }
    }
  }

  /** A new sector with one entry at its start fills the first of 21 missing slots. */
  lemma SectorAdded(a: seq<Sector>, m: BlockMap, lo: nat, hi: nat, j: nat, x: u32, b: seq<byte>, a': seq<Sector>)
    requires j < DIRECT && DirectMap(m, lo, hi) && DirectMap(m[j := x], lo, hi) && hi <= |a| && |b| == ENTRY_SIZE
    requires m[j] == 0 && x != 0 && x < |a| && a' == a[x := Splice(Zeros(SECTOR_SIZE), 0, b)]
    ensures Slots(a', m[j := x]) == Slots(a, m)[PER_SEC * j := DecodeEntry(b)]
  {
    hide Slots, EntryIn, DecodeEntry;
    var s, s' := Slots(a, m)[PER_SEC * j := DecodeEntry(b)], Slots(a', m[j := x]);
    forall k | 0 <= k < SLOTS ensures s'[k] == s[k] {
      DirectSlot(a, m, lo, hi, k / PER_SEC, k % PER_SEC);
      DirectSlot(a', m[j := x], lo, hi, k / PER_SEC, k % PER_SEC);
      if k / PER_SEC == j {
        assert k == PER_SEC * j + k % PER_SEC;
        EntrySpliced(Zeros(SECTOR_SIZE), 0, b, k % PER_SEC);
        EmptySector(k % PER_SEC);
      } else if k / PER_SEC < DIRECT {
        assert m[j := x][k / PER_SEC] == m[k / PER_SEC] && m[j := x][j] == x;
      }
    }
  }

  /** Giving back a sector with one live entry kills exactly that slot. */
  lemma SectorDropped(a: seq<Sector>, m: BlockMap, lo: nat, hi: nat, j: nat, i: nat)
    requires j < DIRECT && DirectMap(m, lo, hi) && DirectMap(m[j := 0], lo, hi) && hi <= |a| && i < PER_SEC
    requires forall k :: PER_SEC * j <= k < PER_SEC * j + PER_SEC && k != PER_SEC * j + i ==> Slots(a, m)[k] == DEAD
    ensures Slots(a, m[j := 0]) == Slots(a, m)[PER_SEC * j + i := DEAD]
  {
    hide Slots, EntryIn;
    var s, s' := Slots(a, m)[PER_SEC * j + i := DEAD], Slots(a, m[j := 0]);
    forall k | 0 <= k < SLOTS ensures s'[k] == s[k] {
      DirectSlot(a, m, lo, hi, k / PER_SEC, k % PER_SEC);
      DirectSlot(a, m[j := 0], lo, hi, k / PER_SEC, k % PER_SEC);
      if k / PER_SEC == j {
        assert k == PER_SEC * j + k % PER_SEC;
      }
    }
  }

  /** The slots depend on the directory's own sectors only. */
  lemma SlotsElsewhere(a: seq<Sector>, a': seq<Sector>, m: BlockMap, lo: nat, hi: nat)
    requires DirectMap(m, lo, hi) && hi <= |a| == |a'| && forall x :: lo <= x < |a| ==> a'[x] == a[x]
    ensures Slots(a', m) == Slots(a, m)
  {
    hide Slots, EntryIn;
    var s, s' := Slots(a, m), Slots(a', m);
    forall k | 0 <= k < SLOTS ensures s'[k] == s[k] {
      DirectSlot(a, m, lo, hi, k / PER_SEC, k % PER_SEC);
      DirectSlot(a', m, lo, hi, k / PER_SEC, k % PER_SEC);
    }
  }

  // ----- sync_dir_entry

  /** The directory `d` is one of the live inodes, and all is well with it and with the bitmap. */
  ghost predicate DirState(files: map<nat, BlockMap>, a: seq<Sector>, bits: seq<bool>, lo: nat, d: InodeData) {
    Agree(files, a, bits, lo) && d.no as nat in files && files[d.no] == d.sectors && DirOk(a, d, lo, lo + |bits|)
  }

  /** Slot `k` is the first unused one. */
  ghost predicate FirstDead(s: seq<DirEntry>, k: int) {
    0 <= k < |s| && !s[k].Live() && forall i :: 0 <= i < k ==> s[i].Live()
  }

  /** An entry that may be added: a new name, and a new inode too unless it is a dot entry. */
  ghost predicate Addable(s: seq<DirEntry>, e: DirEntry) {
    && e.Live() && FileName(e.name) && e.name !in DirMap(s)
    && forall i :: 0 <= i < |s| && s[i].Live() && !s[i].Dot() ==> s[i].ino != e.ino
  }

  lemma DirectOf(files: map<nat, BlockMap>, a: seq<Sector>, bits: seq<bool>, lo: nat, d: InodeData)
    requires DirState(files, a, bits, lo, d)
    ensures DirectMap(d.sectors, lo, lo + |bits|) && lo + |bits| <= |a| && d.sectors[0] != 0 && Readable(a, d.sectors)
    ensures d.no == 0 ==> d.sectors[0] == lo
    ensures SlotsOk(Slots(a, d.sectors)) && d.size <= ENTRY_SIZE * SLOTS && d.size % ENTRY_SIZE == 0
  {
    hide Blocks, Slots, EntryIn, LiveEntries, Apart, AllApart, Partitioned;
    DirectMapIs(a, d.sectors, lo, lo + |bits|);
    DirectSlot(a, d.sectors, lo, lo + |bits|, 0, 0);
    LiveBound(Slots(a, d.sectors));
  }

  lemma {:induction false} LiveBound(s: seq<DirEntry>)
    ensures |LiveEntries(s)| <= |s|
  {
    if s != [] { LiveBound(s[..|s| - 1]); }
  }

  lemma OccupiedKept(s: seq<DirEntry>, k: nat, e: DirEntry, j: nat)
    requires k < |s| && (Occupied(s, j) || j == k / PER_SEC) && e.Live()
    ensures Occupied(s[k := e], j)
  {
    if j == k / PER_SEC {
      assert s[k := e][k].Live();
    } else {
      var i :| PER_SEC * j <= i < PER_SEC * j + PER_SEC && 0 <= i < |s| && s[i].Live();
      assert s[k := e][i].Live();
    }
  }

  lemma AddedDir(a: seq<Sector>, d: InodeData, lo: nat, hi: nat, k: nat, e: DirEntry, a': seq<Sector>, d': InodeData)
    requires DirOk(a, d, lo, hi) && k < SLOTS && !Slots(a, d.sectors)[k].Live() && Addable(Slots(a, d.sectors), e)
    requires Slots(a', d'.sectors) == Slots(a, d.sectors)[k := e] && d'.size == d.size + ENTRY_SIZE
    requires DirectMap(d'.sectors, lo, hi) && hi <= |a'|
    requires forall j :: 1 <= j < DIRECT && d'.sectors[j] != 0 ==> d.sectors[j] != 0 || j == k / PER_SEC
    ensures DirOk(a', d', lo, hi) && DirMap(Slots(a', d'.sectors)) == DirMap(Slots(a, d.sectors))[e.name := e]
  {
    hide Blocks, Slots, EntryIn, LiveEntries, Apart, DirMap, DirectMap, SlotsOk;
    var s := Slots(a, d.sectors);
    DirectApart(a', d'.sectors, lo, hi);
    AddBinding(s, k, e);
    LiveUpdate(s, k, e);
    forall j | 1 <= j < DIRECT && d'.sectors[j] != 0 ensures Occupied(s[k := e], j) {
      OccupiedKept(s, k, e, j);
    }
  }

  /** The entry goes into a sector the directory already has. */
  lemma AddedInPlace(files: map<nat, BlockMap>, a: seq<Sector>, bits: seq<bool>, lo: nat, d: InodeData,
                     k: nat, e: DirEntry, a': seq<Sector>, d': InodeData)
    requires k < PER_SEC * DIRECT && 0 < d.sectors[k / PER_SEC] < |a| && FileName(e.name)
    requires a' == a[d.sectors[k / PER_SEC] := Splice(a[d.sectors[k / PER_SEC]], ENTRY_SIZE * (k % PER_SEC), EncodeEntry(e))]
    requires d' == d.(size := d'.size) && d'.size == d.size + ENTRY_SIZE
    requires FirstDead(Slots(a, d.sectors), k) && Addable(Slots(a, d.sectors), e)
    requires DirState(files, a, bits, lo, d)
    ensures Added(files, a, bits, lo, d, k, e, a', bits, d')
  {
    hide Blocks, Slots, EntryIn, LiveEntries, Apart, DirMap, DirectMap, SlotsOk, EncodeEntry, DecodeEntry, Agree, Named, DirOk, OthersKept, FreeCount;
    var m, j := d.sectors, k / PER_SEC;
    DirectOf(files, a, bits, lo, d);
    EntryRoundTrip(e);
    SectorWritten(a, m, lo, lo + |bits|, j, k % PER_SEC, EncodeEntry(e), a');
    AddedDir(a, d, lo, lo + |bits|, k, e, a', d');
    DirectApart(a', m, lo, lo + |bits|);
    DirectApart(a, m, lo, lo + |bits|);
    GrewStart(bits, lo);
    DirectOwned(a, m);
    DirectOwned(a', m);
    GrowthKeepsAgreement(files, a, bits, lo, d.no, m, a', bits, []);
    assert files[d.no as nat := m] == files;
  }

  /** What sync_dir_entry brings about. */
  ghost predicate Added(files: map<nat, BlockMap>, a: seq<Sector>, bits: seq<bool>, lo: nat, d: InodeData,
                        k: int, e: DirEntry, a': seq<Sector>, bits': seq<bool>, d': InodeData) {
    && 0 <= k < SLOTS
    && Slots(a', d'.sectors) == Slots(a, d.sectors)[k := e]
    && DirMap(Slots(a', d'.sectors)) == DirMap(Slots(a, d.sectors))[e.name := e]
    && d'.no == d.no && d'.size == d.size + ENTRY_SIZE && |bits'| == |bits|
    && DirState(files[d.no as nat := d'.sectors], a', bits', lo, d') && OthersKept(files, d.no, a, a')
  }

  /** A direct map that gains one free block. */
  lemma DirectGrown(files: map<nat, BlockMap>, a: seq<Sector>, bits: seq<bool>, lo: nat, no: nat, j: nat, x: u32,
                    bits': seq<bool>)
    requires Agree(files, a, bits, lo) && no in files && DirectMap(files[no], lo, lo + |bits|) && 1 <= j < DIRECT
    requires files[no][j] == 0 && Grew(bits, bits', lo, [x])
    ensures DirectMap(files[no][j := x], lo, lo + |bits|) && lo <= x < lo + |bits|
  {
    hide Blocks, Named, Agree, FreeCount;
    var m := files[no];
    assert x in [x];
    forall k | 0 <= k < DIRECT && m[k] != 0 ensures m[k] != x {
      DirectOwned(a, m);
      OwnedInRange(files, a, bits, lo, no, m[k]);
    }
  }

  lemma GrownOwned(a: seq<Sector>, m: BlockMap, j: nat, x: u32, a': seq<Sector>)
    requires m[12] == 0 && j < DIRECT && m[j] == 0 && x != 0
    ensures forall y :: y in Owned(a', m[j := x]) <==> y in Owned(a, m) || y in [x]
  {
    hide Named, Blocks;
    var m' := m[j := x];
    DirectOwned(a, m);
    DirectOwned(a', m');
    forall y: int ensures y in Owned(a', m') <==> y in Owned(a, m) || y in [x] {
      if y in Owned(a, m) {
        var k :| 0 <= k < DIRECT && m[k] == y;
        assert m'[k] == y;
      }
      if y == x { assert m'[j] == y; }
    }
  }

  /** The entry opens a new sector. */
  lemma AddedNewSector(files: map<nat, BlockMap>, a: seq<Sector>, bits: seq<bool>, lo: nat, d: InodeData,
                       k: nat, e: DirEntry, x: u32, a': seq<Sector>, bits': seq<bool>, d': InodeData)
    requires k < PER_SEC * DIRECT && k % PER_SEC == 0 && k >= PER_SEC && d.sectors[k / PER_SEC] == 0
    requires FileName(e.name) && x < |a| && a' == a[x := Splice(Zeros(SECTOR_SIZE), 0, EncodeEntry(e))]
    requires d' == d.(size := d'.size, sectors := d.sectors[k / PER_SEC := x]) && d'.size == d.size + ENTRY_SIZE
    requires FirstDead(Slots(a, d.sectors), k) && Addable(Slots(a, d.sectors), e)
    requires Grew(bits, bits', lo, [x]) && DirState(files, a, bits, lo, d)
    ensures Added(files, a, bits, lo, d, k, e, a', bits', d')
  {
    hide Blocks, Slots, EntryIn, LiveEntries, Apart, DirMap, DirectMap, SlotsOk, EncodeEntry, DecodeEntry, Agree, Named,
      DirOk, OthersKept, FreeCount, Grew;
    var m, j := d.sectors, k / PER_SEC;
    DirectOf(files, a, bits, lo, d);
    DirectApart(a, m, lo, lo + |bits|);
    DirectGrown(files, a, bits, lo, d.no, j, x, bits');
    EntryRoundTrip(e);
    SectorAdded(a, m, lo, lo + |bits|, j, x, EncodeEntry(e), a');
    assert k == PER_SEC * j;
    DirectApart(a', m[j := x], lo, lo + |bits|);
    AddedDir(a, d, lo, lo + |bits|, k, e, a', d');
    GrownOwned(a, m, j, x, a');
    GrowthKeepsAgreement(files, a, bits, lo, d.no, m[j := x], a', bits', [x]);
    GrewLength(bits, bits', lo, [x]);
  }

  lemma GrewLength(bits: seq<bool>, bits': seq<bool>, lo: nat, got: seq<u32>)
    requires Grew(bits, bits', lo, got)
    ensures |bits'| == |bits|
  {
    hide FreeCount;
  }

  /** Stores the entry in the first unused slot, in a fresh sector if that slot has none yet. */
  method SyncDirEntry(part: Partition, dir: Inode, e: DirEntry, ghost files: map<nat, BlockMap>, ghost k: nat) returns (ok: bool)
    requires part.Valid() && DirState(files, part.disk.sectors, part.BlockBits(), part.dataStart, dir.Data())
    requires Addable(Slots(part.disk.sectors, dir.iSectors), e)
    requires FirstDead(Slots(part.disk.sectors, dir.iSectors), k) && k < PER_SEC * DIRECT
    requires dir.iSectors[k / PER_SEC] == 0 ==> FreeCount(part.BlockBits()) > 0
    modifies part.disk, part.blockBitmap.bits, dir`iSectors, dir`iSize
    ensures part.Valid() && ok
    ensures Added(files, old(part.disk.sectors), old(part.BlockBits()), part.dataStart, old(dir.Data()), k, e,
                  part.disk.sectors, part.BlockBits(), dir.Data())
    ensures Table(part.disk.sectors, part.inodeTable) == Table(old(part.disk.sectors), part.inodeTable)
  {
    hide Table, Blocks, Slots, EntryIn, EncodeEntry, DirectMap, Agree, DirOk, DirMap, Unpack, FreeCount, Grew, IsFirstFit, Added, SlotsOk, Masked;
    ghost var a, bits, lo, d := part.disk.sectors, part.BlockBits(), part.dataStart, dir.Data();
    ghost var s := Slots(a, d.sectors);
    DirectOf(files, a, bits, lo, d);
    var allBlocks := dir.iSectors[..12] + NoBlocks(128);
    var blockIdx := 0;
    while blockIdx < 140
      invariant part.Valid() && blockIdx <= k / PER_SEC && dir.Data() == d && part.disk.sectors == a && part.BlockBits() == bits
      invariant forall i :: 0 <= i < PER_SEC * blockIdx ==> s[i].Live()
    {
      DirectSlot(a, d.sectors, lo, lo + |bits|, blockIdx, 0);
      if allBlocks[blockIdx] == 0 {
        assert PER_SEC * blockIdx == k;
        GrewStart(bits, lo);
        var blockLba := BlockBitmapAlloc(part, bits, []);
        assert [] + [blockLba] == [blockLba];
        allBlocks := allBlocks[blockIdx := blockLba];
        dir.iSectors := dir.iSectors[blockIdx := blockLba];
        var ioBuf: Sector := Splice(Zeros(SECTOR_SIZE), 0, EncodeEntry(e));
        part.disk.WriteSector(allBlocks[blockIdx], ioBuf);
        dir.iSize := dir.iSize + ENTRY_SIZE;
        TableElsewhere(a, part.disk.sectors, part.inodeTable);
        AddedNewSector(files, a, bits, lo, d, k, e, blockLba, part.disk.sectors, part.BlockBits(), dir.Data());
        return true;
      }
      var ioBuf := part.disk.ReadSector(allBlocks[blockIdx]);
      var dirEntryIdx := 0;
      while dirEntryIdx < PER_SEC
        invariant part.Valid() && dirEntryIdx <= PER_SEC && dir.Data() == d && part.disk.sectors == a && part.BlockBits() == bits
        invariant forall i :: 0 <= i < PER_SEC * blockIdx + dirEntryIdx ==> s[i].Live()
      {
        DirectSlot(a, d.sectors, lo, lo + |bits|, blockIdx, dirEntryIdx);
        if EntryIn(ioBuf, dirEntryIdx).ftype == FT_UNKNOWN {
          assert PER_SEC * blockIdx + dirEntryIdx == k;
          ioBuf := Splice(ioBuf, ENTRY_SIZE * dirEntryIdx, EncodeEntry(e));
          part.disk.WriteSector(allBlocks[blockIdx], ioBuf);
          dir.iSize := dir.iSize + ENTRY_SIZE;
          DirectMapEntry(d.sectors, lo, lo + |bits|, blockIdx);
          TableElsewhere(a, part.disk.sectors, part.inodeTable);
          AddedInPlace(files, a, bits, lo, d, k, e, part.disk.sectors, dir.Data());
          return true;
        }
        dirEntryIdx := dirEntryIdx + 1;
      }
      blockIdx := blockIdx + 1;
    }
    return false;
  }

  /** Whatever keeps the other inodes' blocks keeps the other directories' entries. */
  lemma OtherDirsUnchanged(files: map<nat, BlockMap>, no: nat, a: seq<Sector>, a': seq<Sector>, d: nat, lo: nat, hi: nat)
    requires OthersKept(files, no, a, a') && d in files && d != no && DirectMap(files[d], lo, hi) && hi <= |a|
    ensures Slots(a', files[d]) == Slots(a, files[d])
  {
    hide Slots, EntryIn, Blocks, DirectMap;
    var m := files[d];
    assert KeptIn(m, a, a');
    DirectApart(a, m, lo, hi);
    DirectOwned(a, m);
    var s, s' := Slots(a, m), Slots(a', m);
    forall k | 0 <= k < SLOTS ensures s'[k] == s[k] {
      DirectSlot(a, m, lo, hi, k / PER_SEC, k % PER_SEC);
      DirectSlot(a', m, lo, hi, k / PER_SEC, k % PER_SEC);
      if k / PER_SEC < DIRECT && m[k / PER_SEC] != 0 { assert m[k / PER_SEC] as int in Owned(a, m); }
    }
  }
}

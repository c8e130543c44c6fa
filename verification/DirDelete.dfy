/** Deleting a directory entry, and reading a directory entry by entry (fs/dir.c). */
module DirDelete {
  import opened Bitmaps
  import opened Disks
  import opened Inodes
  import opened Ownership
  import opened Dirs
  import opened DirOps

  /** Some ordinary entry is for inode `ino`. */
  ghost predicate HasEntry(s: seq<DirEntry>, ino: u32) {
    exists i :: 0 <= i < |s| && Matches(s[i], ino)
  }

  // ----- the counting loop over one sector

  /** After `n` slots from `at` on: `cnt` ordinary entries, whether "." was among them, and where
      the entry to delete was found, if it was. */
  ghost predicate Counted(s: seq<DirEntry>, at: nat, n: nat, ino: u32, cnt: nat, first: bool, found: int) {
    && at + n <= |s| && cnt <= n
    && (first <==> exists i :: at <= i < at + n && s[i].Live() && s[i].name == ".")
    && (if found == -1 then forall i :: at <= i < at + n ==> !Matches(s[i], ino)
        else at <= at + found < at + n && Matches(s[at + found], ino) && cnt >= 1)
    && (cnt == 0 ==> forall i :: at <= i < at + n ==> !s[i].Live() || s[i].Dot())
    && (cnt == 1 && found != -1 ==> forall i :: at <= i < at + n && i != at + found ==> !s[i].Live() || s[i].Dot())
    && (cnt >= 1 && found == -1 ==> exists i :: at <= i < at + n && s[i].Live())
    && (cnt >= 2 && found != -1 ==> exists i :: at <= i < at + n && i != at + found && s[i].Live())
  }

  lemma CountStart(s: seq<DirEntry>, at: nat, ino: u32)
    requires at <= |s|
    ensures Counted(s, at, 0, ino, 0, false, -1)
  {
  }

  lemma CountStep(s: seq<DirEntry>, at: nat, n: nat, ino: u32, cnt: nat, first: bool, found: int)
    requires Counted(s, at, n, ino, cnt, first, found) && at + n < |s|
    requires found != -1 ==> !Matches(s[at + n], ino)
    ensures var e := s[at + n];
            Counted(s, at, n + 1, ino, if e.Live() && !e.Dot() then cnt + 1 else cnt,
                    first || (e.Live() && e.name == "."), if Matches(e, ino) then n else found)
  {
    var e := s[at + n];
    if e.Live() { assert s[at + n].Live(); }
    if first {
      var i :| at <= i < at + n && s[i].Live() && s[i].name == ".";
      assert at <= i < at + (n + 1);
    }
    if cnt >= 1 && found == -1 {
      var i :| at <= i < at + n && s[i].Live();
      assert at <= i < at + (n + 1) && i != at + n;
    }
    if cnt >= 2 && found != -1 {
      var i :| at <= i < at + n && i != at + found && s[i].Live();
      assert at <= i < at + (n + 1);
    }
  }

  /** At most one entry matches. */
  lemma OneMatch(s: seq<DirEntry>, i: nat, j: nat, ino: u32)
    requires SlotsOk(s) && i < |s| && j < |s| && Matches(s[i], ino) && Matches(s[j], ino)
    ensures i == j
  {
  }

  /** What the loop knows at the end of a sector that held the entry. */
  lemma CountEnd(s: seq<DirEntry>, j: nat, ino: u32, cnt: nat, first: bool, found: int)
    requires SlotsOk(s) && j < DIRECT && Counted(s, PER_SEC * j, PER_SEC, ino, cnt, first, found) && found != -1
    ensures first <==> j == 0
    ensures var k := PER_SEC * j + found; 2 <= k < |s| && Matches(s[k], ino) && cnt >= 1 && 0 <= found < PER_SEC
    ensures cnt == 1 && j > 0 ==> AloneIn(s, j, PER_SEC * j + found)
    ensures cnt >= 2 && j > 0 ==> Occupied(s[PER_SEC * j + found := DEAD], j)
  {
    var k := PER_SEC * j + found;
    assert s[0].Live() && s[1].Live();
    if first {
      var i :| PER_SEC * j <= i < PER_SEC * j + PER_SEC && s[i].Live() && s[i].name == ".";
      assert i == 0;
    }
    if cnt >= 2 && j > 0 {
      var i :| PER_SEC * j <= i < PER_SEC * j + PER_SEC && i != k && s[i].Live();
      assert s[k := DEAD][i].Live();
    }
  }

  // ----- delete_dir_entry

  /** What a successful delete_dir_entry brings about. */
  ghost predicate Removed(files: map<nat, BlockMap>, a: seq<Sector>, bits: seq<bool>, lo: nat, d: InodeData,
                          k: int, a': seq<Sector>, bits': seq<bool>, d': InodeData) {
    && 2 <= k < SLOTS
    && Slots(a', d'.sectors) == Slots(a, d.sectors)[k := DEAD]
    && DirMap(Slots(a', d'.sectors)) == DirMap(Slots(a, d.sectors)) - {Slots(a, d.sectors)[k].name}
    && d'.no == d.no && d'.size == d.size - ENTRY_SIZE && |bits'| == |bits|
    && DirState(files[d.no as nat := d'.sectors], a', bits', lo, d') && OthersKept(files, d.no, a, a')
  }

  lemma RemovedDir(a: seq<Sector>, d: InodeData, lo: nat, hi: nat, k: nat, a': seq<Sector>, d': InodeData)
    requires DirOk(a, d, lo, hi) && 2 <= k < SLOTS && Slots(a, d.sectors)[k].Live()
    requires Slots(a', d'.sectors) == Slots(a, d.sectors)[k := DEAD] && d'.size == d.size - ENTRY_SIZE
    requires DirectMap(d'.sectors, lo, hi) && hi <= |a'|
    requires forall j :: 1 <= j < DIRECT && d'.sectors[j] != 0 ==>
               d.sectors[j] != 0 && (j == k / PER_SEC ==> Occupied(Slots(a, d.sectors)[k := DEAD], j))
    ensures DirOk(a', d', lo, hi)
    ensures DirMap(Slots(a', d'.sectors)) == DirMap(Slots(a, d.sectors)) - {Slots(a, d.sectors)[k].name}
  {
    hide Blocks, Slots, EntryIn, LiveEntries, Apart, DirMap, DirectMap, SlotsOk;
    var s := Slots(a, d.sectors);
    DirectApart(a', d'.sectors, lo, hi);
    RemoveBinding(s, k);
    LiveUpdate(s, k, DEAD);
    forall j | 1 <= j < DIRECT && d'.sectors[j] != 0 ensures Occupied(s[k := DEAD], j) {
      if j != k / PER_SEC {
        var i :| PER_SEC * j <= i < PER_SEC * j + PER_SEC && 0 <= i < |s| && s[i].Live();
        assert s[k := DEAD][i].Live();
      }
    }
  }

  /** The entry is zeroed in its sector. */
  lemma RemovedInPlace(files: map<nat, BlockMap>, a: seq<Sector>, bits: seq<bool>, lo: nat, d: InodeData, k: nat,
                       a1: seq<Sector>, t0: nat, a': seq<Sector>, d': InodeData)
    requires 2 <= k < PER_SEC * DIRECT && Slots(a, d.sectors)[k].Live()
    requires 0 < d.sectors[k / PER_SEC] < |a|
    requires a1 == a[d.sectors[k / PER_SEC] := Splice(a[d.sectors[k / PER_SEC]], ENTRY_SIZE * (k % PER_SEC), Zeros(ENTRY_SIZE))]
    requires SameOutsideTable(a1, a', t0) && lo == t0 + TABLE_SECTS
    requires d' == d.(size := d'.size) && d'.size == d.size - ENTRY_SIZE
    requires k / PER_SEC > 0 ==> Occupied(Slots(a, d.sectors)[k := DEAD], k / PER_SEC)
    requires DirState(files, a, bits, lo, d)
    ensures Removed(files, a, bits, lo, d, k, a', bits, d')
  {
    hide Blocks, Slots, EntryIn, LiveEntries, Apart, DirMap, DirectMap, SlotsOk, DecodeEntry, Agree, Named, DirOk, OthersKept, FreeCount, Splice;
    var m, j := d.sectors, k / PER_SEC;
    DirectOf(files, a, bits, lo, d);
    DeadBytes();
    SectorWritten(a, m, lo, lo + |bits|, j, k % PER_SEC, Zeros(ENTRY_SIZE), a1);
    SlotsElsewhere(a1, a', m, lo, lo + |bits|);
    DirectApart(a', m, lo, lo + |bits|);
    RemovedInDir(files, a, bits, lo, d, k, a', d');
    GrewStart(bits, lo);
    DirectOwned(a, m);
    DirectOwned(a', m);
    GrowthKeepsAgreement(files, a, bits, lo, d.no, m, a', bits, []);
    assert files[d.no as nat := m] == files;
  }

  lemma RemovedInDir(files: map<nat, BlockMap>, a: seq<Sector>, bits: seq<bool>, lo: nat, d: InodeData, k: nat,
                     a': seq<Sector>, d': InodeData)
    requires DirState(files, a, bits, lo, d) && 2 <= k < SLOTS && Slots(a, d.sectors)[k].Live()
    requires Slots(a', d'.sectors) == Slots(a, d.sectors)[k := DEAD] && d'.size == d.size - ENTRY_SIZE
    requires DirectMap(d'.sectors, lo, lo + |bits|) && lo + |bits| <= |a'|
    requires forall j :: 1 <= j < DIRECT && d'.sectors[j] != 0 ==>
               d.sectors[j] != 0 && (j == k / PER_SEC ==> Occupied(Slots(a, d.sectors)[k := DEAD], j))
    ensures DirOk(a', d', lo, lo + |bits|)
    ensures DirMap(Slots(a', d'.sectors)) == DirMap(Slots(a, d.sectors)) - {Slots(a, d.sectors)[k].name}
  {
    hide Slots, DirMap, DirOk, DirectMap, Agree;
    RemovedDir(a, d, lo, lo + |bits|, k, a', d');
  }

  lemma ShrunkOwned(a: seq<Sector>, m: BlockMap, lo: nat, hi: nat, j: nat, a': seq<Sector>)
    requires DirectMap(m, lo, hi) && 1 <= j < DIRECT && m[j] != 0
    ensures DirectMap(m[j := 0], lo, hi)
    ensures forall y :: y in Owned(a', m[j := 0]) <==> y in Owned(a, m) && y != m[j]
    ensures m[j] as int in Owned(a, m)
  {
    hide Named, Blocks;
    var m' := m[j := 0];
    DirectOwned(a, m);
    DirectOwned(a', m');
    forall y: int ensures y in Owned(a', m') <==> y in Owned(a, m) && y != m[j] {
      if y in Owned(a, m) && y != m[j] {
        var k :| 0 <= k < DIRECT && m[k] == y;
        assert m'[k] == y;
      }
      if y in Owned(a', m') {
        var k :| 0 <= k < DIRECT && m'[k] == y;
        assert m[k] == y && k != j;
      }
    }
  }

  /** Slot `k` is the only used one of sector `j`. */
  ghost predicate AloneIn(s: seq<DirEntry>, j: nat, k: int) {
    && PER_SEC * j <= k < PER_SEC * j + PER_SEC <= |s| && s[k].Live()
    && forall i :: PER_SEC * j <= i < PER_SEC * j + PER_SEC && i != k ==> s[i] == DEAD
  }

  /** The sector held nothing else and goes back to the bitmap. */
  lemma RemovedSector(files: map<nat, BlockMap>, a: seq<Sector>, bits: seq<bool>, lo: nat, d: InodeData, k: nat,
                      t0: nat, a': seq<Sector>, bits': seq<bool>, d': InodeData)
    requires PER_SEC <= k < PER_SEC * DIRECT
    requires lo <= d.sectors[k / PER_SEC] < lo + |bits| && bits' == bits[d.sectors[k / PER_SEC] - lo := false]
    requires d' == d.(size := d'.size, sectors := d.sectors[k / PER_SEC := 0]) && d'.size == d.size - ENTRY_SIZE
    requires AloneIn(Slots(a, d.sectors), k / PER_SEC, k)
    requires SameOutsideTable(a, a', t0) && lo == t0 + TABLE_SECTS && DirState(files, a, bits, lo, d)
    ensures Removed(files, a, bits, lo, d, k, a', bits', d')
  {
    hide Blocks, Slots, EntryIn, LiveEntries, Apart, DirMap, DirectMap, SlotsOk, DecodeEntry, Agree, Named, DirOk, OthersKept;
    var m, j := d.sectors, k / PER_SEC;
    DirectOf(files, a, bits, lo, d);
    DirectApart(a, m, lo, lo + |bits|);
    ShrunkOwned(a, m, lo, lo + |bits|, j, a');
    SectorDropped(a, m, lo, lo + |bits|, j, k % PER_SEC);
    SlotsElsewhere(a, a', m[j := 0], lo, lo + |bits|);
    DirectApart(a', m[j := 0], lo, lo + |bits|);
    RemovedInDir(files, a, bits, lo, d, k, a', d');
    forall i | 0 <= i < |bits|
      ensures bits'[i] <==> (bits[i] && lo + i !in Owned(a, m)) || lo + i in Owned(a', m[j := 0])
    {
      if lo + i in Owned(a, m) { OwnedInRange(files, a, bits, lo, d.no, lo + i); }
    }
    OwnershipFrame(files, a, bits, lo, d.no, m[j := 0], a', bits');
  }

  ghost predicate SectorIs(s: seq<DirEntry>, at: nat, buf: Sector) {
    at + PER_SEC <= |s| && forall i :: 0 <= i < PER_SEC ==> EntryIn(buf, i) == s[at + i]
  }

  lemma SectorSlots(a: seq<Sector>, m: BlockMap, lo: nat, hi: nat, j: nat)
    requires DirectMap(m, lo, hi) && hi <= |a| && j < ALL_BLOCKS
    ensures j < DIRECT && m[j] != 0 ==> lo <= m[j] < hi && SectorIs(Slots(a, m), PER_SEC * j, a[m[j]])
    ensures j >= DIRECT || m[j] == 0 ==> forall k :: PER_SEC * j <= k < PER_SEC * j + PER_SEC ==> Slots(a, m)[k] == DEAD
  {
    hide Slots, EntryIn;
    if j < DIRECT && m[j] != 0 {
      forall i | 0 <= i < PER_SEC ensures EntryIn(a[m[j]], i) == Slots(a, m)[PER_SEC * j + i] {
        DirectSlot(a, m, lo, hi, j, i);
      }
    } else {
      forall k | PER_SEC * j <= k < PER_SEC * j + PER_SEC ensures Slots(a, m)[k] == DEAD {
        DirectSlot(a, m, lo, hi, j, k - PER_SEC * j);
      }
    }
  }

  lemma SizeCovers(a: seq<Sector>, d: InodeData, lo: nat, hi: nat, k: nat)
    requires DirOk(a, d, lo, hi) && k < SLOTS && Slots(a, d.sectors)[k].Live()
    ensures d.size >= ENTRY_SIZE
  {
    hide Slots, SlotsOk;
    LiveUpdate(Slots(a, d.sectors), k, DEAD);
  }

  /** One pass over a sector: how many ordinary entries, whether "." is among them, and which slot
      holds the entry for `ino`. The assertion that it is found once cannot fail. */
  method CountSector(buf: Sector, ino: u32, ghost s: seq<DirEntry>, ghost at: nat)
      returns (cnt: nat, isDirFirstBlock: bool, found: int)
    requires SlotsOk(s) && SectorIs(s, at, buf)
    ensures Counted(s, at, PER_SEC, ino, cnt, isDirFirstBlock, found)
  {
    hide EntryIn, SlotsOk, Counted;
    cnt, isDirFirstBlock, found := 0, false, -1;
    CountStart(s, at, ino);
    var dirEntryIdx := 0;
    while dirEntryIdx < PER_SEC
      invariant dirEntryIdx <= PER_SEC
      invariant Counted(s, at, dirEntryIdx, ino, cnt, isDirFirstBlock, found)
    {
      var dirE := EntryIn(buf, dirEntryIdx);
      FoundOnce(s, at, dirEntryIdx, ino, cnt, isDirFirstBlock, found);
      CountStep(s, at, dirEntryIdx, ino, cnt, isDirFirstBlock, found);
      if dirE.ftype != FT_UNKNOWN {
        if dirE.name == "." {
          isDirFirstBlock := true;
        } else if dirE.name != "." && dirE.name != ".." {
          cnt := cnt + 1;
          if dirE.ino == ino {
            assert found == -1;
            found := dirEntryIdx;
          }
        }
      }
      dirEntryIdx := dirEntryIdx + 1;
    }
  }

  lemma FoundOnce(s: seq<DirEntry>, at: nat, n: nat, ino: u32, cnt: nat, first: bool, found: int)
    requires SlotsOk(s) && Counted(s, at, n, ino, cnt, first, found) && at + n < |s|
    ensures found != -1 ==> !Matches(s[at + n], ino)
  {
    hide SlotsOk;
    if found != -1 && Matches(s[at + n], ino) {
      OneMatch(s, at + found, at + n, ino);
    }
  }

  /** Removes the one ordinary entry for inode `inodeNo`, with its sector if it was alone there. */
  method DeleteDirEntry(part: Partition, dir: Inode, inodeNo: u32, ghost files: map<nat, BlockMap>) returns (done: bool, ghost k: int)
    requires part.Valid() && DirState(files, part.disk.sectors, part.BlockBits(), part.dataStart, dir.Data())
    requires dir.iNo < INODE_CNT
    modifies part.disk, part.blockBitmap.bits, dir`iSectors, dir`iSize
    ensures part.Valid()
    ensures done <==> HasEntry(Slots(old(part.disk.sectors), old(dir.iSectors)), inodeNo)
    ensures !done ==> part.disk.sectors == old(part.disk.sectors) && dir.Data() == old(dir.Data()) &&
                      part.BlockBits() == old(part.BlockBits())
    ensures done ==> Removed(files, old(part.disk.sectors), old(part.BlockBits()), part.dataStart, old(dir.Data()), k,
                             part.disk.sectors, part.BlockBits(), dir.Data())
    ensures done ==> Matches(Slots(old(part.disk.sectors), old(dir.iSectors))[k], inodeNo)
    ensures done ==>
              Table(part.disk.sectors, part.inodeTable)
              == Table(old(part.disk.sectors), part.inodeTable)[dir.iNo % 256 := EncodeInode(dir.Data())]
  {
    hide Blocks, Slots, EntryIn, EncodeInode, DirectMap, Agree, DirOk, DirMap, Unpack, Removed, SlotsOk, Table, Counted, DecodeWords, Masked;
    ghost var a, bits, lo, d := part.disk.sectors, part.BlockBits(), part.dataStart, dir.Data();
    ghost var s := Slots(a, d.sectors);
    DirectOf(files, a, bits, lo, d);
    var allBlocks := dir.iSectors[..12] + NoBlocks(128);
    k := -1;
    var blockIdx := 0;
    while blockIdx < 140
      invariant part.Valid() && blockIdx <= 140 && dir.Data() == d && part.disk.sectors == a && part.BlockBits() == bits
      invariant forall i :: 0 <= i < PER_SEC * blockIdx ==> !Matches(s[i], inodeNo)
    {
      SectorSlots(a, d.sectors, lo, lo + |bits|, blockIdx);
      if allBlocks[blockIdx] == 0 {
        blockIdx := blockIdx + 1;
        continue;
      }
      var ioBuf := part.disk.ReadSector(allBlocks[blockIdx]);
      var cnt, isDirFirstBlock, found := CountSector(ioBuf, inodeNo, s, PER_SEC * blockIdx);
      if found == -1 {
        CountedNone(s, PER_SEC * blockIdx, inodeNo, cnt, isDirFirstBlock);
        blockIdx := blockIdx + 1;
        continue;
      }
      CountEnd(s, blockIdx, inodeNo, cnt, isDirFirstBlock, found);
      k := PER_SEC * blockIdx + found;
      if cnt == 1 && !isDirFirstBlock {
        BlockBitmapFree(part, allBlocks[blockIdx]);
        dir.iSectors := dir.iSectors[blockIdx := 0];
      } else {
        ioBuf := Splice(ioBuf, ENTRY_SIZE * found, Zeros(ENTRY_SIZE));
        part.disk.WriteSector(allBlocks[blockIdx], ioBuf);
      }
      ghost var a1 := part.disk.sectors;
      TableElsewhere(a, a1, part.inodeTable);
      SizeCovers(a, d, lo, lo + |bits|, k);
      assert dir.iSize >= ENTRY_SIZE;
      dir.iSize := dir.iSize - ENTRY_SIZE;
      var synced := part.InodeSync(dir, 2 * SECTOR_SIZE);
      if cnt == 1 && !isDirFirstBlock {
        RemovedSector(files, a, bits, lo, d, k, part.inodeTable, part.disk.sectors, part.BlockBits(), dir.Data());
      } else {
        RemovedInPlace(files, a, bits, lo, d, k, a1, part.inodeTable, part.disk.sectors, dir.Data());
      }
      return true, k;
    }
    return false, k;
  }

  lemma CountedNone(s: seq<DirEntry>, at: nat, ino: u32, cnt: nat, first: bool)
    requires Counted(s, at, PER_SEC, ino, cnt, first, -1)
    ensures forall i :: at <= i < at + PER_SEC ==> !Matches(s[i], ino)
  {
  }
}

/** The directory tree is what the directories' sectors hold: the operations on one directory are
    steps of the tree, and dir_remove is the tree's removal (fs/dir.c). */
module TreeDisk {
  import opened Bitmaps
  import opened Disks
  import opened Inodes
  import opened Ownership
  import opened Release
  import opened Dirs
  import opened DirOps
  import opened DirDelete
  import opened DirRead
  import opened Formats
  import opened Trees
  import opened TreeOps
  import opened Util

  /** The tree read off the disk. `dirs` has the block maps of the directories. */
  ghost function TreeOn(a: seq<Sector>, dirs: map<nat, BlockMap>): Tree {
    map d | d in dirs :: Slots(a, dirs[d])
  }

  /** The directories are live inodes with direct blocks only, and ownership of blocks is exact. */
  ghost predicate OnDisk(dirs: map<nat, BlockMap>, files: map<nat, BlockMap>, a: seq<Sector>, bits: seq<bool>, lo: nat) {
    && Agree(files, a, bits, lo)
    && forall d :: d in dirs ==> d in files && files[d] == dirs[d] && DirectMap(dirs[d], lo, lo + |bits|)
  }

  /** What search_dir_entry finds is one step of the walk. */
  lemma LookupRefines(a: seq<Sector>, dirs: map<nat, BlockMap>, d: nat, name: string, n: nat, found: Option<DirEntry>)
    requires d in dirs
    requires var s := Slots(a, dirs[d]); found == if First(s, name) == -1 then Option.None else Some(s[First(s, name)])
    ensures Step(TreeOn(a, dirs), d, name, n) == if found.None? then Missing(d, n) else Found(found.value.ino, found.value.ftype, d)
  {
    hide Slots, First;
  }

  /** One directory changes, the others keep their blocks: the tree changes at that directory. */
  lemma OneDirChanges(dirs: map<nat, BlockMap>, files: map<nat, BlockMap>, a: seq<Sector>, bits: seq<bool>, lo: nat,
                      no: nat, m: BlockMap, a': seq<Sector>)
    requires OthersKept(files, no, a, a') && OnDisk(dirs, files, a, bits, lo)
    ensures TreeOn(a', dirs[no := m]) == TreeOn(a, dirs)[no := Slots(a', m)]
  {
    hide Slots, DirectMap, OthersKept, Agree;
    InsideDisk(files, a, bits, lo);
    forall d | d in dirs && d != no ensures Slots(a', dirs[d]) == Slots(a, dirs[d]) {
      OtherDirsUnchanged(files, no, a, a', d, lo, lo + |bits|);
    }
  }

  lemma StillOnDisk(dirs: map<nat, BlockMap>, files: map<nat, BlockMap>, a: seq<Sector>, bits: seq<bool>, lo: nat,
                    d: InodeData, a': seq<Sector>, bits': seq<bool>)
    requires OnDisk(dirs, files, a, bits, lo) && |bits'| == |bits|
    requires DirState(files[d.no as nat := d.sectors], a', bits', lo, d)
    ensures OnDisk(dirs[d.no as nat := d.sectors], files[d.no as nat := d.sectors], a', bits', lo)
  {
    hide Slots, DirectMap, Agree, DirOk;
    DirectOf(files[d.no as nat := d.sectors], a', bits', lo, d);
  }

  /** Slot `k` of directory `d` becomes `e`. */
  ghost function WithSlot(t: Tree, d: nat, k: nat, e: DirEntry): Tree {
    if d in t && k < |t[d]| then t[d := t[d][k := e]] else t
  }

  /** Creating a file or a directory writes one slot of the parent. */
  lemma CreatingIs(t: Tree, p: u32, k: nat, name: string, i: u32)
    requires CanAdd(t, p, k, name, i)
    ensures After(t, Create(p, k, name, i)) == WithSlot(t, p, k, DirEntry(name, i, FT_REGULAR))
    ensures After(t, Mkdir(p, k, name, i)) == WithSlot(t[i as int := NewDir(i, p)], p, k, DirEntry(name, i, FT_DIRECTORY))
  {
    hide NewDir;
    var e := DirEntry(name, i, FT_DIRECTORY);
    assert t[p as int := t[p][k := e]][i as int := NewDir(i, p)] == t[i as int := NewDir(i, p)][p as int := t[p][k := e]];
  }

  /** sync_dir_entry writes its entry into the tree. */
  lemma SyncRefines(dirs: map<nat, BlockMap>, files: map<nat, BlockMap>, a: seq<Sector>, bits: seq<bool>, lo: nat, d: InodeData,
                    k: nat, e: DirEntry, a': seq<Sector>, bits': seq<bool>, d': InodeData)
    requires d.no as nat in dirs && dirs[d.no] == d.sectors
    requires OnDisk(dirs, files, a, bits, lo)
    requires Added(files, a, bits, lo, d, k, e, a', bits', d')
    ensures OnDisk(dirs[d.no as nat := d'.sectors], files[d.no as nat := d'.sectors], a', bits', lo)
    ensures TreeOn(a', dirs[d.no as nat := d'.sectors]) == WithSlot(TreeOn(a, dirs), d.no, k, e)
  {
    hide Slots, DirMap, DirState, OthersKept, OnDisk;
    StillOnDisk(dirs, files, a, bits, lo, d', a', bits');
    OneDirChanges(dirs, files, a, bits, lo, d.no, d'.sectors, a');
  }

  /** A new directory's first sector adds an empty directory to the tree, which nothing names yet. */
  lemma NewDirRefines(dirs: map<nat, BlockMap>, files: map<nat, BlockMap>, a: seq<Sector>, bits: seq<bool>, lo: nat,
                      i: u32, p: u32, c: InodeData, a1: seq<Sector>, bits1: seq<bool>)
    requires c.no == i && i as nat !in files && |bits1| == |bits| && Slots(a1, c.sectors) == NewDir(i, p)
    requires OthersKept(files, i, a, a1) && DirState(files[i as nat := c.sectors], a1, bits1, lo, c)
    requires OnDisk(dirs, files, a, bits, lo)
    ensures OnDisk(dirs[i as nat := c.sectors], files[i as nat := c.sectors], a1, bits1, lo)
    ensures TreeOn(a1, dirs[i as nat := c.sectors]) == TreeOn(a, dirs)[i as nat := NewDir(i, p)]
  {
    hide Slots, OthersKept, OnDisk, NewDir, DirState;
    StillOnDisk(dirs, files, a, bits, lo, c, a1, bits1);
    OneDirChanges(dirs, files, a, bits, lo, i, c.sectors, a1);
  }

  lemma InFiles(dirs: map<nat, BlockMap>, files: map<nat, BlockMap>, a: seq<Sector>, bits: seq<bool>, lo: nat, d: nat)
    requires OnDisk(dirs, files, a, bits, lo) && d in dirs
    ensures d in files && files[d] == dirs[d]
  {
    hide Agree, DirectMap;
  }

  /** The entry delete_dir_entry finds is the first one with the number. */
  lemma FoundIsFirst(s: seq<DirEntry>, k: nat, ino: u32)
    requires SlotsOk(s) && k < |s| && Matches(s[k], ino)
    ensures Deleted(s, ino) == s[k := DEAD]
  {
    hide FirstEntry, SlotsOk, Matches;
    OneEntry(s, FirstEntry(s, ino), k, ino);
  }

  lemma OneEntry(s: seq<DirEntry>, j: nat, k: nat, ino: u32)
    requires SlotsOk(s) && j < |s| && k < |s| && Matches(s[j], ino) && Matches(s[k], ino)
    ensures j == k
  {
  }

  lemma NotFound(s: seq<DirEntry>, ino: u32)
    requires !HasEntry(s, ino)
    ensures Deleted(s, ino) == s
  {
    hide FirstEntry;
  }

  /** delete_dir_entry is deletion in the tree, whether the entry is found or not. */
  lemma DeleteRefines(dirs: map<nat, BlockMap>, files: map<nat, BlockMap>, a: seq<Sector>, bits: seq<bool>, lo: nat, d: InodeData,
                      ino: u32, k: int, a': seq<Sector>, bits': seq<bool>, d': InodeData)
    requires d.no as nat in dirs && dirs[d.no] == d.sectors
    requires OnDisk(dirs, files, a, bits, lo) && DirState(files, a, bits, lo, d)
    requires if HasEntry(Slots(a, d.sectors), ino)
             then DirDelete.Removed(files, a, bits, lo, d, k, a', bits', d') && Matches(Slots(a, d.sectors)[k], ino)
             else a' == a && d' == d && bits' == bits
    ensures OnDisk(dirs[d.no as nat := d'.sectors], files[d.no as nat := d'.sectors], a', bits', lo)
    ensures TreeOn(a', dirs[d.no as nat := d'.sectors]) == TreeOn(a, dirs)[d.no as nat := Deleted(Slots(a, d.sectors), ino)]
  {
    hide Slots, DirMap, OthersKept, OnDisk, HasEntry, Deleted, DirectMap, DirOk, Agree, SlotsOk, Matches;
    DirectOf(files, a, bits, lo, d);
    var s := Slots(a, d.sectors);
    if HasEntry(s, ino) {
      FoundIsFirst(s, k, ino);
      StillOnDisk(dirs, files, a, bits, lo, d', a', bits');
      OneDirChanges(dirs, files, a, bits, lo, d.no, d'.sectors, a');
    } else {
      NotFound(s, ino);
      assert dirs[d.no as nat := d.sectors] == dirs && files[d.no as nat := d.sectors] == files;
      assert TreeOn(a, dirs)[d.no as nat := s] == TreeOn(a, dirs);
    }
  }

  lemma ReleaseRefines(dirs: map<nat, BlockMap>, files: map<nat, BlockMap>, a: seq<Sector>, bits: seq<bool>, lo: nat, i: nat, bits': seq<bool>)
    requires OnDisk(dirs, files, a, bits, lo) && Agree(files - {i}, a, bits', lo) && |bits'| == |bits|
    ensures OnDisk(dirs - {i}, files - {i}, a, bits', lo) && TreeOn(a, dirs - {i}) == TreeOn(a, dirs) - {i}
  {
    hide Slots, DirectMap, Agree;
  }

  /** Rewriting the inode table changes no directory. */
  lemma TableIsNoDir(dirs: map<nat, BlockMap>, files: map<nat, BlockMap>, a: seq<Sector>, bits: seq<bool>, lo: nat, a': seq<Sector>)
    requires |a'| == |a| && forall x :: lo <= x < |a| ==> a'[x] == a[x]
    requires OnDisk(dirs, files, a, bits, lo)
    ensures OnDisk(dirs, files, a', bits, lo) && TreeOn(a', dirs) == TreeOn(a, dirs)
  {
    hide Slots, DirectMap, Agree;
    SameAgreement(files, a, bits, lo, a');
    forall d | d in dirs ensures Slots(a', dirs[d]) == Slots(a, dirs[d]) {
      SlotsElsewhere(a, a', dirs[d], lo, lo + |bits|);
    }
  }

  lemma SameAgreement(files: map<nat, BlockMap>, a: seq<Sector>, bits: seq<bool>, lo: nat, a': seq<Sector>)
    requires Agree(files, a, bits, lo) && |a'| == |a| && forall x :: lo <= x < |a| ==> a'[x] == a[x]
    ensures Agree(files, a', bits, lo) && lo + |bits| <= |a|
  {
    hide Blocks, Named, Apart, FreeCount;
    GrewStart(bits, lo);
    RootsMap(files, a, bits, lo, a');
    GrowthKeepsAgreement(files, a, bits, lo, 0, files[0], a', bits, []);
    assert files[0 := files[0]] == files;
  }

  lemma RootsMap(files: map<nat, BlockMap>, a: seq<Sector>, bits: seq<bool>, lo: nat, a': seq<Sector>)
    requires Agree(files, a, bits, lo) && |a'| == |a| && forall x :: lo <= x < |a| ==> a'[x] == a[x]
    ensures 0 in files && files[0][0] == lo && Blocks(a', files[0]) == Blocks(a, files[0])
    ensures Apart(Blocks(a', files[0]), files[0][12], lo, lo + |bits|) && lo + |bits| <= |a|
  {
    hide Blocks, Named, Partitioned;
    SameBlockMap(a, files[0], a');
  }

  // ----- dir_remove

  /** A directory that has been opened: it is cached, and what the cache holds is on the disk. */
  ghost predicate OpenDir(part: Partition, dir: Inode, dirs: map<nat, BlockMap>)
    reads part, part.openInodes
  {
    dir in part.openInodes && dir.iNo < INODE_CNT && dir.iNo as nat in dirs && dirs[dir.iNo] == dir.iSectors
  }

  lemma NoOtherCached(part: Partition, child: Inode)
    requires part.CacheOk() && child in part.openInodes
    ensures forall e :: e in part.openInodes && e.iNo == child.iNo ==> e == child
  {
  }

  lemma EmptyHasNoEntry(a: seq<Sector>, d: InodeData, lo: nat, hi: nat, ino: u32)
    requires DirOk(a, d, lo, hi) && d.size == 2 * ENTRY_SIZE
    ensures !HasEntry(Slots(a, d.sectors), ino)
  {
    hide Slots, DirMap, LiveEntries;
    var s := Slots(a, d.sectors);
    if i :| 0 <= i < |s| && Matches(s[i], ino) {
      EmptyMeansDotsOnly(a, d, lo, hi);
      LiveInMap(s, i);
    }
  }

  /** delete_dir_entry, as deletion in the tree. */
  method DeleteInTree(part: Partition, dir: Inode, inodeNo: u32, ghost files: map<nat, BlockMap>, ghost dirs: map<nat, BlockMap>)
      returns (ghost files': map<nat, BlockMap>, ghost dirs': map<nat, BlockMap>)
    requires part.Valid() && dir.iNo < INODE_CNT && dir.iNo as nat in dirs && dirs[dir.iNo] == dir.iSectors
    requires OnDisk(dirs, files, part.disk.sectors, part.BlockBits(), part.dataStart)
    requires DirState(files, part.disk.sectors, part.BlockBits(), part.dataStart, dir.Data())
    modifies part.disk, part.blockBitmap.bits, dir`iSectors, dir`iSize
    ensures part.Valid() && OnDisk(dirs', files', part.disk.sectors, part.BlockBits(), part.dataStart)
    ensures files' == files[dir.iNo as nat := dir.iSectors] && dirs' == dirs[dir.iNo as nat := dir.iSectors]
    ensures TreeOn(part.disk.sectors, dirs')
         == TreeOn(old(part.disk.sectors), dirs)[dir.iNo as nat := Deleted(Slots(old(part.disk.sectors), old(dir.iSectors)), inodeNo)]
    ensures !HasEntry(Slots(old(part.disk.sectors), old(dir.iSectors)), inodeNo) ==> dir.Data() == old(dir.Data())
    ensures OthersKept(files, dir.iNo, old(part.disk.sectors), part.disk.sectors)
    ensures DirOk(part.disk.sectors, dir.Data(), part.dataStart, part.dataStart + part.blockCnt)
    ensures SyncedOrSame(old(dir.Data()), dir.Data(), Table(old(part.disk.sectors), part.inodeTable), Table(part.disk.sectors, part.inodeTable))
  {
    hide Slots, DirMap, DirState, OnDisk, Unpack, Agree, TreeOn, HasEntry, Deleted, Table, EncodeInode, DirDelete.Removed, Masked, DirOk, OthersKept;
    ghost var a, bits, lo, d := part.disk.sectors, part.BlockBits(), part.dataStart, dir.Data();
    var done;
    ghost var k;
    done, k := DeleteDirEntry(part, dir, inodeNo, files);
    DeleteRefines(dirs, files, a, bits, lo, d, inodeNo, k, part.disk.sectors, part.BlockBits(), dir.Data());
    DeletedKeeps(files, a, bits, lo, d, k, part.disk.sectors, part.BlockBits(), dir.Data(), done);
    files', dirs' := files[d.no as nat := dir.iSectors], dirs[d.no as nat := dir.iSectors];
  }

  /** If the inode has changed, its record has been written, and no other. */
  ghost predicate SyncedOrSame(d: InodeData, d': InodeData, table: seq<seq<byte>>, table': seq<seq<byte>>) {
    if d' == d then table' == table else |table| == INODE_CNT && table' == table[d'.no % 256 := EncodeInode(d')]
  }

  /** The parent's entry goes, if there is one, and the child's inode in any case: the result of
      the deletion is not looked at. */
  method DirRemove(part: Partition, parent: Inode, child: Inode, ghost files: map<nat, BlockMap>, ghost dirs: map<nat, BlockMap>)
      returns (ghost files': map<nat, BlockMap>, ghost dirs': map<nat, BlockMap>)
    requires part.Valid() && part.CacheOk() && OpenDir(part, parent, dirs) && OpenDir(part, child, dirs) && child.iNo != 0
    requires OnDisk(dirs, files, part.disk.sectors, part.BlockBits(), part.dataStart)
    requires DirState(files, part.disk.sectors, part.BlockBits(), part.dataStart, parent.Data())
    requires DirState(files, part.disk.sectors, part.BlockBits(), part.dataStart, child.Data()) && child.iSize == 2 * ENTRY_SIZE
    modifies part`openInodes, part.openInodes, part.disk, part.blockBitmap.bits, part.inodeBitmap.bits
    ensures part.Valid() && part.CacheOk()
    ensures OnDisk(dirs', files', part.disk.sectors, part.BlockBits(), part.dataStart)
    ensures TreeOn(part.disk.sectors, dirs') == TreeOps.Removed(TreeOn(old(part.disk.sectors), dirs), old(parent.iNo), old(child.iNo))
    ensures part.inodeBitmap.View() == old(part.inodeBitmap.View())[old(child.iNo) := false]
    ensures files' == files[parent.iNo as nat := parent.iSectors] - {child.iNo as nat}
    ensures dirs' == dirs[parent.iNo as nat := parent.iSectors] - {child.iNo as nat}
    ensures OthersKept(files, parent.iNo, old(part.disk.sectors), part.disk.sectors)
    ensures DirOk(part.disk.sectors, parent.Data(), part.dataStart, part.dataStart + part.blockCnt)
    ensures part.openInodes == old(part.openInodes) && parent.iNo == old(parent.iNo)
    ensures forall e :: e in part.openInodes ==> e.iOpenCnts == old(e.iOpenCnts) && (e != parent ==> e.Data() == old(e.Data()))
    ensures SyncedOrSame(old(parent.Data()), parent.Data(), Table(old(part.disk.sectors), part.inodeTable), Table(part.disk.sectors, part.inodeTable))
  {
    hide Slots, DirMap, DirState, OnDisk, Unpack, Agree, TreeOn, HasEntry, Deleted, Table, Masked, DirOk, OthersKept, SyncedOrSame;
    ghost var a, bits, lo, d, i := part.disk.sectors, part.BlockBits(), part.dataStart, parent.Data(), child.iNo as nat;
    SectorsGone(files, a, bits, lo, child.Data());
    var blockIdx := 1;
    while blockIdx < 13
      invariant 1 <= blockIdx <= 13
    {
      assert child.iSectors[blockIdx] == 0;
      blockIdx := blockIdx + 1;
    }
    NoOtherCached(part, child);
    EmptyHasNoEntryHere(files, a, bits, lo, child.Data(), child.iNo);
    files', dirs' := DeleteInTree(part, parent, child.iNo, files, dirs);
    ghost var bits1 := part.BlockBits();
    AgreesOnDisk(dirs', files', part.disk.sectors, bits1, lo, i);
    InodeRelease(part, child.iNo, files');
    ReleaseRefines(dirs', files', part.disk.sectors, bits1, lo, i, part.BlockBits());
    files', dirs' := files' - {i}, dirs' - {i};
    RemovedIs(a, dirs, d.no, i);
  }

  lemma DeletedKeeps(files: map<nat, BlockMap>, a: seq<Sector>, bits: seq<bool>, lo: nat, d: InodeData,
                     k: int, a': seq<Sector>, bits': seq<bool>, d': InodeData, done: bool)
    requires DirState(files, a, bits, lo, d)
    requires if done then DirDelete.Removed(files, a, bits, lo, d, k, a', bits', d') else a' == a && d' == d && bits' == bits
    ensures OthersKept(files, d.no, a, a') && DirOk(a', d', lo, lo + |bits|) && (d' != d <==> done)
  {
    hide Slots, DirMap, Agree, DirOk, KeptIn, SlotsOk;
    if !done {
      forall q | q in files && q != d.no as nat ensures KeptIn(files[q], a, a') { SameKept(files, a, bits, lo, q); }
    }
  }

  lemma SectorsGone(files: map<nat, BlockMap>, a: seq<Sector>, bits: seq<bool>, lo: nat, d: InodeData)
    requires DirState(files, a, bits, lo, d) && d.size == 2 * ENTRY_SIZE
    ensures forall j :: 1 <= j < 13 ==> d.sectors[j] == 0
  {
    hide Slots, DirOk, Agree;
    EmptyDirHasOneSector(a, d, lo, lo + |bits|);
  }

  lemma EmptyHasNoEntryHere(files: map<nat, BlockMap>, a: seq<Sector>, bits: seq<bool>, lo: nat, d: InodeData, ino: u32)
    requires DirState(files, a, bits, lo, d) && d.size == 2 * ENTRY_SIZE
    ensures !HasEntry(Slots(a, d.sectors), ino)
  {
    hide Slots, DirOk, Agree, HasEntry;
    EmptyHasNoEntry(a, d, lo, lo + |bits|, ino);
  }

  lemma AgreesOnDisk(dirs: map<nat, BlockMap>, files: map<nat, BlockMap>, a: seq<Sector>, bits: seq<bool>, lo: nat, i: nat)
    requires OnDisk(dirs, files, a, bits, lo) && i in dirs
    ensures Agree(files, a, bits, lo) && i in files && files[i] == dirs[i]
  {
    hide Agree, DirectMap;
  }

  lemma RemovedIs(a: seq<Sector>, dirs: map<nat, BlockMap>, p: nat, i: nat)
    requires p in dirs
    ensures p in TreeOn(a, dirs) && TreeOps.Removed(TreeOn(a, dirs), p, i) == TreeOn(a, dirs)[p := Deleted(Slots(a, dirs[p]), i)] - {i}
  {
    hide Slots, Deleted;
  }

  // ----- sys_mkdir, once the parent is found and a number allocated

  lemma KeptDir(a: seq<Sector>, a': seq<Sector>, d: InodeData, lo: nat, hi: nat)
    requires KeptIn(d.sectors, a, a') && DirOk(a, d, lo, hi) && lo <= hi
    ensures DirOk(a', d, lo, hi) && Slots(a', d.sectors) == Slots(a, d.sectors)
  {
    hide Slots, Blocks, Apart, LiveEntries, SlotsOk, Owned;
    var files: map<nat, BlockMap> := map[d.no as nat := d.sectors];
    DirectMapIs(a, d.sectors, lo, hi);
    OtherDirsUnchanged(files, d.no + 1, a, a', d.no, lo, hi);
  }

  lemma KeptTwice(m: BlockMap, a: seq<Sector>, b: seq<Sector>, c: seq<Sector>)
    requires KeptIn(m, a, b) && KeptIn(m, b, c)
    ensures KeptIn(m, a, c)
  {
    hide Blocks, Named;
  }

  /** What a new directory leaves in place: the other inodes, and both directories well formed. */
  lemma MadeKeeps(files: map<nat, BlockMap>, a: seq<Sector>, lo: nat, c: InodeData, a1: seq<Sector>, bits1: seq<bool>, d: InodeData,
                  k: nat, e: DirEntry, a2: seq<Sector>, bits2: seq<bool>, d2: InodeData, a4: seq<Sector>)
    requires c.no as nat !in files && d.no as nat in files && OthersKept(files, c.no, a, a1) && DirOk(a1, c, lo, lo + |bits1|)
    requires |a4| == |a2| && forall x :: lo <= x < |a2| ==> a4[x] == a2[x]
    requires Added(files[c.no as nat := c.sectors], a1, bits1, lo, d, k, e, a2, bits2, d2)
    ensures OthersKept(files, d.no, a, a4) && DirOk(a4, d2, lo, lo + |bits1|) && DirOk(a4, c, lo, lo + |bits1|)
  {
    hide DirOk, Slots, DirMap, Agree, KeptIn;
    var files1 := files[c.no as nat := c.sectors];
    var files2 := files1[d.no as nat := d2.sectors];
    forall q | q in files && q != d.no as nat ensures KeptIn(files[q], a, a4) {
      assert files1[q] == files[q] == files2[q];
      DataKept(files2, a2, bits2, lo, q, a4);
      KeptTwice(files[q], a, a1, a2);
      KeptTwice(files[q], a, a2, a4);
    }
    DataKept(files2, a2, bits2, lo, d.no, a4);
    KeptDir(a2, a4, d2, lo, lo + |bits1|);
    assert c.no as nat in files1 && c.no as nat in files2 && files2[c.no as nat] == c.sectors;
    DataKept(files2, a2, bits2, lo, c.no, a4);
    KeptTwice(c.sectors, a1, a2, a4);
    KeptDir(a1, a4, c, lo, lo + |bits1|);
  }

  /** A directory other than the changed one is as well formed as before. */
  lemma DirStateKept(files: map<nat, BlockMap>, a: seq<Sector>, bits: seq<bool>, lo: nat, d: InodeData, i: nat, m: BlockMap,
                     a1: seq<Sector>, bits1: seq<bool>)
    requires d.no != i && |bits1| == |bits| && OthersKept(files, i, a, a1) && Agree(files[i := m], a1, bits1, lo)
    requires DirState(files, a, bits, lo, d)
    ensures DirState(files[i := m], a1, bits1, lo, d) && Slots(a1, d.sectors) == Slots(a, d.sectors)
  {
    hide Slots, Blocks, Agree, Apart, LiveEntries, SlotsOk, Owned;
    DirectOf(files, a, bits, lo, d);
    OtherDirsUnchanged(files, i, a, a1, d.no, lo, lo + |bits|);
    assert KeptIn(files[d.no], a, a1);
  }

  lemma Outside(a: seq<Sector>, a': seq<Sector>, t0: nat, lo: nat)
    requires SameOutsideTable(a, a', t0) && lo == t0 + TABLE_SECTS
    ensures |a'| == |a| && forall x :: lo <= x < |a| ==> a'[x] == a[x]
  {
  }

  /** The new directory's first sector, its entry in the parent, and both inodes. */
  method MakeDir(part: Partition, parent: Inode, inodeNo: u32, name: string, ghost k: nat,
                 ghost files: map<nat, BlockMap>, ghost dirs: map<nat, BlockMap>)
      returns (newDirInode: Inode, ghost files': map<nat, BlockMap>, ghost dirs': map<nat, BlockMap>)
    requires part.Valid() && parent.iNo < INODE_CNT && parent.iNo as nat in dirs && dirs[parent.iNo] == parent.iSectors
    requires 0 < inodeNo < INODE_CNT && inodeNo as nat !in files && FreeCount(part.BlockBits()) >= 2
    requires FirstDead(Slots(part.disk.sectors, parent.iSectors), k) && k < PER_SEC * DIRECT
    requires Addable(Slots(part.disk.sectors, parent.iSectors), DirEntry(name, inodeNo, FT_DIRECTORY))
    requires OnDisk(dirs, files, part.disk.sectors, part.BlockBits(), part.dataStart)
    requires DirState(files, part.disk.sectors, part.BlockBits(), part.dataStart, parent.Data())
    modifies part.disk, part.blockBitmap.bits, parent`iSectors, parent`iSize
    ensures part.Valid() && OnDisk(dirs', files', part.disk.sectors, part.BlockBits(), part.dataStart)
    ensures TreeOn(part.disk.sectors, dirs') == WithSlot(TreeOn(old(part.disk.sectors), dirs)[inodeNo as nat := NewDir(inodeNo, parent.iNo)],
                                                         parent.iNo, k, DirEntry(name, inodeNo, FT_DIRECTORY))
    ensures newDirInode.iNo == inodeNo && newDirInode.iSize == 2 * ENTRY_SIZE && inodeNo as nat in dirs' && dirs'[inodeNo] == newDirInode.iSectors
    ensures Table(part.disk.sectors, part.inodeTable)
         == Table(old(part.disk.sectors), part.inodeTable)[parent.iNo % 256 := EncodeInode(parent.Data())]
                                                          [inodeNo % 256 := EncodeInode(newDirInode.Data())]
    ensures files' == files[inodeNo as nat := newDirInode.iSectors][parent.iNo as nat := parent.iSectors]
    ensures dirs' == dirs[inodeNo as nat := newDirInode.iSectors][parent.iNo as nat := parent.iSectors]
    ensures OthersKept(files, parent.iNo, old(part.disk.sectors), part.disk.sectors) && fresh(newDirInode)
    ensures DirOk(part.disk.sectors, parent.Data(), part.dataStart, part.dataStart + part.blockCnt)
    ensures DirOk(part.disk.sectors, newDirInode.Data(), part.dataStart, part.dataStart + part.blockCnt)
  {
    hide Slots, DirMap, OnDisk, Unpack, Agree, TreeOn, Table, EncodeInode, DirOk, FreeCount, NewDir, WithSlot,
      Added, OthersKept, SameOutsideTable, Addable, Masked;
    ghost var a, lo, i := part.disk.sectors, part.dataStart, inodeNo as nat;
    ghost var bits := part.BlockBits();
    newDirInode := new Inode.Init(inodeNo);
    InFiles(dirs, files, a, bits, lo, parent.iNo);
    DirAgrees(files, a, bits, lo, parent.Data());
    var made := MakeDirectory(part, inodeNo, parent.iNo, files);
    newDirInode.iSectors, newDirInode.iSize := made.sectors, made.size;
    ghost var a1, bits1, p := part.disk.sectors, part.BlockBits(), parent.Data();
    files', dirs' := files[i := made.sectors], dirs[i := made.sectors];
    DirAgrees(files', a1, bits1, lo, made);
    NewDirRefines(dirs, files, a, bits, lo, inodeNo, parent.iNo, made, a1, bits1);
    DirStateKept(files, a, bits, lo, p, i, made.sectors, a1, bits1);
    var ok := SyncDirEntry(part, parent, DirEntry(name, inodeNo, FT_DIRECTORY), files', k);
    ghost var a2, bits2 := part.disk.sectors, part.BlockBits();
    SyncRefines(dirs', files', a1, bits1, lo, p, k, DirEntry(name, inodeNo, FT_DIRECTORY), a2, bits2, parent.Data());
    files', dirs' := files'[parent.iNo as nat := parent.iSectors], dirs'[parent.iNo as nat := parent.iSectors];
    var synced := part.InodeSync(parent, 2 * SECTOR_SIZE);
    Outside(a2, part.disk.sectors, part.inodeTable, lo);
    TableIsNoDir(dirs', files', a2, bits2, lo, part.disk.sectors);
    ghost var a3 := part.disk.sectors;
    synced := part.InodeSync(newDirInode, 2 * SECTOR_SIZE);
    Outside(a3, part.disk.sectors, part.inodeTable, lo);
    TableIsNoDir(dirs', files', a3, bits2, lo, part.disk.sectors);
    MadeDirOk(files, a1, bits1, lo, made);
    MadeKeeps(files, a, lo, made, a1, bits1, p, k, DirEntry(name, inodeNo, FT_DIRECTORY), a2, bits2, parent.Data(), part.disk.sectors);
  }

  lemma MadeDirOk(files: map<nat, BlockMap>, a: seq<Sector>, bits: seq<bool>, lo: nat, d: InodeData)
    requires DirState(files[d.no as nat := d.sectors], a, bits, lo, d)
    ensures DirOk(a, d, lo, lo + |bits|)
  {
    hide Agree, DirOk;
  }

  lemma DirAgrees(files: map<nat, BlockMap>, a: seq<Sector>, bits: seq<bool>, lo: nat, d: InodeData)
    requires DirState(files, a, bits, lo, d)
    ensures Agree(files, a, bits, lo)
  {
    hide Agree, DirOk;
  }
}

/** The mounted file system: what every operation keeps true of disk, bitmaps, inode table and cache
    together, and what it does to the tree and to the contents of the files (fs/fs.c, fs/file.c). */
module FileSystems {
  import opened Bitmaps
  import opened Disks
  import opened Inodes
  import opened Ownership
  import opened Files
  import opened Release
  import opened Dirs
  import opened DirOps
  import DirDelete
  import DirRead
  import opened Formats
  import opened FormatDisk
  import opened Paths
  import opened Trees
  import opened TreeOps
  import opened TreeDisk
  import opened Links
  import opened Volumes

  // ----- numbers and records

  /** A set bit is a live inode. */
  ghost predicate Numbered(live: set<nat>, bits: seq<bool>) {
    |bits| == INODE_CNT && (forall i :: i in live ==> i < INODE_CNT) && forall i: nat :: i < INODE_CNT ==> (bits[i] <==> i in live)
  }

  ghost predicate IsTable(table: seq<seq<byte>>) {
    |table| == INODE_CNT && forall m :: 0 <= m < INODE_CNT ==> |table[m]| == INODE_SIZE
  }

  ghost predicate RecordIs(table: seq<seq<byte>>, i: nat, d: InodeData) {
    i < INODE_CNT && IsTable(table) && table[i] == EncodeInode(d)
  }

  /** Each live inode has its record in the table. inode_sync reaches only the first 256. */
  ghost predicate Recorded(inodes: map<nat, InodeData>, table: seq<seq<byte>>) {
    IsTable(table) && forall i :: i in inodes ==> i < 256 && RecordIs(table, i, inodes[i])
  }

  /** Everything but the cache: block bitmap, inodes, tree, inode bitmap and inode table agree. */
  ghost predicate Whole(v: Volume, table: seq<seq<byte>>, numbers: seq<bool>) {
    v.Sound() && Linked(v.AsTree(), v.AsFiles().Keys) && Numbered(v.inodes.Keys, numbers) && Recorded(v.inodes, table)
  }

  /** The inode under its number. */
  ghost function Set(inodes: map<nat, InodeData>, d: InodeData): map<nat, InodeData> {
    inodes[d.no as nat := d]
  }

  /** The record under its number, as far as inode_sync knows it. */
  ghost function SetRecord(table: seq<seq<byte>>, d: InodeData): (t: seq<seq<byte>>)
    ensures IsTable(table) ==> IsTable(t)
  {
    if |table| == INODE_CNT then table[d.no % 256 := EncodeInode(d)] else table
  }

  lemma RecordSet(inodes: map<nat, InodeData>, table: seq<seq<byte>>, d: InodeData)
    requires Recorded(inodes, table)
    ensures Recorded(Set(inodes, d), SetRecord(table, d)) <==> d.no as int < 256
  {
    hide EncodeInode;
    assert d.no as nat in Set(inodes, d);
  }

  /** Inode `i` is live, but its place in the table holds the record of another. */
  ghost predicate Overwritten(inodes: map<nat, InodeData>, table: seq<seq<byte>>, i: nat) {
    i in inodes && IsTable(table) && i < INODE_CNT && DecodeInode(table[i]).no as int != i
  }

  lemma OneClear(bits: seq<bool>, i: nat)
    requires i < |bits| && !bits[i]
    ensures ClearRun(bits, i, 1)
  {
  }

  lemma BelowFirst(bits: seq<bool>, r: nat, i: nat)
    requires IsFirstFit(bits, 1, r) && i < r < |bits|
    ensures bits[i]
  {
    if !bits[i] { OneClear(bits, i); }
  }

  /** The first free number is only above 255 if all numbers below are in use. */
  lemma RecordLost(v: Volume, table: seq<seq<byte>>, numbers: seq<bool>, d: InodeData, e: InodeData)
    requires e.no as int >= 256 && e.no < INODE_CNT && IsFirstFit(numbers, 1, e.no)
    requires Whole(v, table, numbers)
    ensures Overwritten(v.inodes, SetRecord(SetRecord(table, d), e), e.no as nat % 256)
  {
    hide DecodeInode, EncodeInode, Volume.Sound, Linked, Volume.AsTree, Volume.AsFiles, RecordIs, IsFirstFit;
    InodeRoundTrip(e);
    BelowFirst(numbers, e.no, e.no as nat % 256);
  }

  lemma RecordOf(v: Volume, table: seq<seq<byte>>, numbers: seq<bool>, i: nat)
    requires i in v.inodes && Whole(v, table, numbers)
    ensures i < 256 && v.inodes[i].no as int == i
    ensures |table| == INODE_CNT && |table[i]| == INODE_SIZE && DecodeInode(table[i]) == v.inodes[i] && table[i][12] == 0
  {
    hide DecodeInode, EncodeInode, Volume.Sound, Numbered, Linked, Volume.AsTree, Volume.AsFiles;
    assert RecordIs(table, i, v.inodes[i]);
    InodeRoundTrip(v.inodes[i]);
    RecordLayout(v.inodes[i]);
    SoundNumber(v, i);
  }

  lemma SoundNumber(v: Volume, i: nat)
    requires i in v.inodes && v.Sound()
    ensures v.inodes[i].no as int == i && i in v.Maps() && v.Maps()[i] == v.inodes[i].sectors
  {
    hide Agree, DirOk, FileOk;
    SoundInode(v, i);
  }

  lemma NumbersLeft(v: Volume, table: seq<seq<byte>>, numbers: seq<bool>)
    requires Whole(v, table, numbers)
    ensures FreeCount(numbers) > 0
  {
    hide RecordIs, Volume.Sound, Linked, Volume.AsTree, Volume.AsFiles;
    assert !numbers[256];
    FreeCountPositive(numbers);
  }

  lemma TreeKeys(v: Volume)
    requires v.Sound()
    ensures v.dirs <= v.inodes.Keys && v.AsTree().Keys == v.dirs && v.AsFiles().Keys == v.inodes.Keys - v.dirs && 0 in v.inodes
  {
    hide Agree, Slots, Contents, Volume.InodeOk;
    InsideDisk(v.Maps(), v.a, v.bits, v.lo);
  }

  // ----- formatting

  ghost function Root(lo: u32): InodeData {
    InodeData(0, 2 * ENTRY_SIZE, OneBlock(lo))
  }

  lemma FormattedVolume(a: seq<Sector>, bits: seq<bool>, lo: u32)
    requires DirState(map[0 := OneBlock(lo)], a, bits, lo, Root(lo)) && TreeOn(a, map[0 := OneBlock(lo)]) == FORMATTED
    ensures var v := Volume(map[0 := Root(lo)], {0}, a, bits, lo);
            v.Sound() && v.AsTree() == FORMATTED && v.AsFiles() == map[] && Linked(v.AsTree(), {})
  {
    hide DirOk, Agree, Slots, OneBlock, FORMATTED, WellFormed;
    var v := Volume(map[0 := Root(lo)], {0}, a, bits, lo);
    assert v.Maps() == map[0 := OneBlock(lo)];
    assert v.DirMaps() == map[0 := OneBlock(lo)];
    NoFilesYet();
  }

  // ----- new entries

  /** A number with a clear bit. */
  lemma NewNumber(v: Volume, numbers: seq<bool>, i: u32)
    requires Numbered(v.inodes.Keys, numbers) && i < INODE_CNT && !numbers[i]
    requires v.Sound() && Linked(v.AsTree(), v.AsFiles().Keys)
    ensures i as nat !in v.inodes && i as nat !in v.dirs && i != 0 && FreeInode(v.AsTree(), i)
  {
    hide Volume.Sound, Volume.AsTree, Volume.AsFiles, Linked;
    TreeKeys(v);
    assert i as nat !in v.AsTree().Keys && i as nat !in v.inodes.Keys;
    FreeNumber(v.AsTree(), v.AsFiles().Keys, i);
  }

  lemma NameFits(v: Volume, p: u32, k: nat, name: string, i: u32)
    requires p as nat in v.dirs && p as nat in v.inodes && FreeInode(v.AsTree(), i)
    requires FileName(name) && IsComponent(name) && First(Slots(v.a, v.inodes[p].sectors), name) == -1
    requires FirstDead(Slots(v.a, v.inodes[p].sectors), k)
    requires v.Sound()
    ensures CanAdd(v.AsTree(), p, k, name, i) && DirState(v.Maps(), v.a, v.bits, v.lo, v.inodes[p])
    ensures Addable(Slots(v.a, v.inodes[p].sectors), DirEntry(name, i, FT_REGULAR))
    ensures Addable(Slots(v.a, v.inodes[p].sectors), DirEntry(name, i, FT_DIRECTORY))
  {
    hide Volume.Sound, Volume.AsTree, Volume.Maps, Agree, DirOk, First, FileName, Slots, DirMap;
    DirOfVolume(v, p);
    DirectOf(v.Maps(), v.a, v.bits, v.lo, v.inodes[p]);
    LookupAgrees(Slots(v.a, v.inodes[p].sectors), name);
  }

  /** What the caller has looked up is enough for a new entry with a free number. */
  lemma CanCreate(v: Volume, table: seq<seq<byte>>, numbers: seq<bool>, p: u32, k: nat, name: string, i: u32)
    requires p as nat in v.dirs && p as nat in v.inodes && |numbers| == INODE_CNT && i < INODE_CNT && !numbers[i]
    requires FileName(name) && IsComponent(name) && First(Slots(v.a, v.inodes[p].sectors), name) == -1
    requires FirstDead(Slots(v.a, v.inodes[p].sectors), k)
    requires Whole(v, table, numbers)
    ensures p as int < 256 && i != 0 && i as nat !in v.inodes && i as nat !in v.dirs && CanAdd(v.AsTree(), p, k, name, i)
    ensures DirState(v.Maps(), v.a, v.bits, v.lo, v.inodes[p]) && v.inodes[p].no == p
    ensures Addable(Slots(v.a, v.inodes[p].sectors), DirEntry(name, i, FT_REGULAR))
    ensures Addable(Slots(v.a, v.inodes[p].sectors), DirEntry(name, i, FT_DIRECTORY))
  {
    hide Volume.Sound, Volume.AsTree, Volume.AsFiles, Linked, CanAdd, Addable, DirState, Slots, RecordIs, First, FileName;
    RecordOf(v, table, numbers, p);
    NewNumber(v, numbers, i);
    NameFits(v, p, k, name, i);
  }

  lemma Fronts(a: seq<Sector>, b: seq<Sector>, c: seq<Sector>, t0: nat, lo: nat)
    requires SameOutsideTable(a, b, t0) && SameOutsideTable(b, c, t0) && lo == t0 + TABLE_SECTS
    ensures |c| == |a| && forall x :: lo <= x < |a| ==> c[x] == a[x]
  {
  }

  /** An entry, and the table. */
  lemma EntrySynced(v: Volume, p: nat, k: nat, e: DirEntry, a1: seq<Sector>, bits1: seq<bool>, d': InodeData, a2: seq<Sector>)
    requires |a2| == |a1| && forall x :: v.lo <= x < |a1| ==> a2[x] == a1[x]
    requires p in v.dirs && p in v.inodes
    requires Added(v.Maps(), v.a, v.bits, v.lo, v.inodes[p], k, e, a1, bits1, d')
    requires v.Sound()
    ensures var w := v.With(p, d', a2, bits1);
            w.Sound() && w.AsTree() == WithSlot(v.AsTree(), p, k, e) && w.AsFiles() == v.AsFiles()
  {
    hide Added, Volume.Sound, Volume.AsTree, Volume.AsFiles, WithSlot, Volume.Maps;
    EntryAdded(v, p, k, e, a1, bits1, d');
    Rewritten(v.With(p, d', a1, bits1), a2);
  }

  /** file_create, on the volume. */
  lemma FileCreated(v: Volume, p: u32, k: nat, name: string, i: u32, a1: seq<Sector>, bits1: seq<bool>, d': InodeData, a2: seq<Sector>)
    requires |a2| == |a1| && forall x :: v.lo <= x < |a1| ==> a2[x] == a1[x]
    requires p as nat in v.dirs && p as nat in v.inodes && i as nat !in v.inodes && i as nat !in v.dirs
    requires Added(v.Maps(), v.a, v.bits, v.lo, v.inodes[p], k, DirEntry(name, i, FT_REGULAR), a1, bits1, d')
    requires CanAdd(v.AsTree(), p, k, name, i)
    requires v.Sound() && Linked(v.AsTree(), v.AsFiles().Keys)
    ensures var w := v.With(p, d', a2, bits1).With(i, InodeData(i, 0, EMPTY), a2, bits1);
            && w.Sound() && Linked(w.AsTree(), w.AsFiles().Keys)
            && Does(v.AsTree(), Create(p, k, name, i), w.AsTree()) && w.AsFiles() == v.AsFiles()[i as nat := []]
  {
    hide Added, Volume.Sound, Volume.AsTree, Volume.AsFiles, WithSlot, Volume.Maps, Linked, CanAdd, After, FreeInode;
    var e := DirEntry(name, i, FT_REGULAR);
    EntrySynced(v, p, k, e, a1, bits1, d', a2);
    FileAdded(v.With(p, d', a2, bits1), i);
    CreatingIs(v.AsTree(), p, k, name, i);
    CreateLinks(v.AsTree(), v.AsFiles().Keys, p, k, name, i);
    assert v.AsFiles()[i as nat := []].Keys == v.AsFiles().Keys + {i as nat};
  }

  lemma NumbersSet(inodes: map<nat, InodeData>, numbers: seq<bool>, d: InodeData, e: InodeData)
    requires Numbered(inodes.Keys, numbers) && d.no as nat in inodes && e.no < INODE_CNT
    ensures Numbered(Set(Set(inodes, d), e).Keys, numbers[e.no := true])
  {
  }

  lemma RecordsSet(inodes: map<nat, InodeData>, table: seq<seq<byte>>, d: InodeData, e: InodeData)
    requires Recorded(inodes, table) && d.no as int < 256
    ensures Recorded(Set(Set(inodes, d), e), SetRecord(SetRecord(table, d), e)) <==> e.no as int < 256
  {
    hide Recorded, SetRecord, Set;
    RecordSet(inodes, table, d);
    RecordSet(Set(inodes, d), SetRecord(table, d), e);
  }

  /** file_create, on everything but the cache. */
  lemma CreatedWhole(v: Volume, table: seq<seq<byte>>, numbers: seq<bool>, p: u32, k: nat, name: string, i: u32,
                     a1: seq<Sector>, bits1: seq<bool>, d': InodeData, a2: seq<Sector>)
    requires |a2| == |a1| && forall x :: v.lo <= x < |a1| ==> a2[x] == a1[x]
    requires p as nat in v.dirs && p as nat in v.inodes && i as nat !in v.inodes && i as nat !in v.dirs && p as int < 256
    requires Added(v.Maps(), v.a, v.bits, v.lo, v.inodes[p], k, DirEntry(name, i, FT_REGULAR), a1, bits1, d')
    requires d'.no == p && i < INODE_CNT && |numbers| == INODE_CNT && CanAdd(v.AsTree(), p, k, name, i)
    requires Whole(v, table, numbers)
    ensures var d := InodeData(i, 0, EMPTY);
            var w := v.With(p, d', a2, bits1).With(i, d, a2, bits1);
            && (Whole(w, SetRecord(SetRecord(table, d'), d), numbers[i := true]) <==> i as int < 256)
            && Does(v.AsTree(), Create(p, k, name, i), w.AsTree()) && w.AsFiles() == v.AsFiles()[i as nat := []]
  {
    hide Added, Volume.Sound, Volume.AsTree, Volume.AsFiles, Volume.Maps, Linked, CanAdd, Does, Numbered, Recorded, SetRecord;
    var d := InodeData(i, 0, EMPTY);
    FileCreated(v, p, k, name, i, a1, bits1, d', a2);
    NumbersSet(v.inodes, numbers, d', d);
    RecordsSet(v.inodes, table, d', d);
  }

  // ----- file_write

  lemma CanWrite(v: Volume, table: seq<seq<byte>>, numbers: seq<bool>, i: nat)
    requires i in v.inodes && i !in v.dirs && Whole(v, table, numbers)
    ensures 0 < i < 256 && v.inodes[i].no as int == i && i in v.Maps() && v.Maps()[i] == v.inodes[i].sectors
    ensures Agree(v.Maps(), v.a, v.bits, v.lo) && FileOk(v.a, v.inodes[i], v.lo, v.lo + |v.bits|)
  {
    hide Agree, FileOk, DirOk, RecordIs, Numbered, WellFormed, HasFile, Volume.AsTree, Volume.AsFiles;
    RecordOf(v, table, numbers, i);
    SoundInode(v, i);
    TreeKeys(v);
    RootOfTree(v.AsTree());
  }

  lemma RootOfTree(t: Trees.Tree)
    requires WellFormed(t)
    ensures 0 in t
  {
  }

  lemma FileWritten(v: Volume, i: nat, a': seq<Sector>, bits': seq<bool>, d': InodeData, buf: seq<byte>)
    requires i in v.inodes && i !in v.dirs && |bits'| == |v.bits|
    requires Appended(v.Maps(), v.a, v.inodes[i], v.bits, a', d', bits', v.lo, buf)
    requires v.Sound()
    ensures i in v.AsFiles() && d'.no as int == i
    ensures var w := v.With(i, d', a', bits');
            w.Sound() && w.AsTree() == v.AsTree() && w.AsFiles() == v.AsFiles()[i := v.AsFiles()[i] + buf]
  {
    hide Agree, DirOk, FileOk, Contents, OthersKept, Volume.AsTree, FreeCount, BlocksNeeded, Volume.Maps;
    SoundInode(v, i);
    Changed(v, v.With(i, d', a', bits'), i, d');
  }

  /** file_write, on everything but the cache. */
  lemma WrittenWhole(v: Volume, table: seq<seq<byte>>, numbers: seq<bool>, i: nat, a': seq<Sector>, bits': seq<bool>, d': InodeData, buf: seq<byte>)
    requires i in v.inodes && i !in v.dirs && |bits'| == |v.bits|
    requires Appended(v.Maps(), v.a, v.inodes[i], v.bits, a', d', bits', v.lo, buf)
    requires Whole(v, table, numbers)
    ensures i in v.AsFiles() && d'.no as int == i
    ensures var w := v.With(i, d', a', bits');
            && Whole(w, SetRecord(table, d'), numbers)
            && w.AsTree() == v.AsTree() && w.AsFiles() == v.AsFiles()[i := v.AsFiles()[i] + buf]
  {
    hide Appended, Volume.Sound, Volume.AsTree, Volume.AsFiles, Volume.Maps, Linked, Numbered, Recorded, SetRecord;
    RecordOf(v, table, numbers, i);
    FileWritten(v, i, a', bits', d', buf);
    RecordSet(v.inodes, table, d');
    assert Set(v.inodes, d').Keys == v.inodes.Keys;
    assert v.AsFiles()[i := v.AsFiles()[i] + buf].Keys == v.AsFiles().Keys;
  }

  // ----- sys_unlink

  /** delete_dir_entry, on the volume. */
  lemma EntryDeleted(v: Volume, p: nat, k: int, i: u32, a': seq<Sector>, bits': seq<bool>, d': InodeData)
    requires p in v.dirs && p in v.inodes && 0 <= k < SLOTS && Matches(Slots(v.a, v.inodes[p].sectors)[k], i)
    requires DirDelete.Removed(v.Maps(), v.a, v.bits, v.lo, v.inodes[p], k, a', bits', d')
    requires v.Sound()
    ensures p in v.AsTree() && d'.no as int == p
    ensures var w := v.With(p, d', a', bits');
            w.Sound() && w.AsTree() == v.AsTree()[p := Deleted(v.AsTree()[p], i)] && w.AsFiles() == v.AsFiles()
  {
    hide Agree, DirOk, FileOk, Slots, DirMap, OthersKept, Volume.AsTree, Volume.AsFiles, Volume.Sound, Volume.Maps, SlotsOk, Matches, Deleted;
    DirOfVolume(v, p);
    DirectOf(v.Maps(), v.a, v.bits, v.lo, v.inodes[p]);
    FoundIsFirst(Slots(v.a, v.inodes[p].sectors), k, i);
    Changed(v, v.With(p, d', a', bits'), p, d');
  }

  ghost function Less(v: Volume, i: nat, bits': seq<bool>): Volume {
    Volume(v.inodes - {i}, v.dirs - {i}, v.a, bits', v.lo)
  }

  lemma NumberGone(inodes: map<nat, InodeData>, table: seq<seq<byte>>, numbers: seq<bool>, i: nat)
    requires Numbered(inodes.Keys, numbers) && Recorded(inodes, table) && i < INODE_CNT
    ensures Numbered((inodes - {i}).Keys, numbers[i := false]) && Recorded(inodes - {i}, table)
  {
    hide RecordIs;
  }

  /** A file of the tree is a live inode and no directory. */
  lemma FileLive(v: Volume, p: nat, j: nat, i: nat)
    requires IsFile(v.AsTree(), p, j) && v.AsTree()[p][j].ino as int == i
    requires v.Sound() && Linked(v.AsTree(), v.AsFiles().Keys)
    ensures i in v.inodes && i !in v.dirs && i !in v.AsTree() && i in v.AsFiles() && i != 0
  {
    hide Volume.Sound, Volume.AsTree, Volume.AsFiles, TreeOk;
    TreeKeys(v);
    assert HasFile(v.AsTree(), i);
    assert i in v.AsFiles().Keys && i !in v.AsTree().Keys;
    RootOfTree(v.AsTree());
  }

  lemma UnlinkedVolume(v: Volume, p: u32, j: nat, k: int, i: u32, a': seq<Sector>, bits1: seq<bool>, d': InodeData, bits2: seq<bool>)
    requires p as nat in v.dirs && p as nat in v.inodes && 0 <= k < SLOTS && Matches(Slots(v.a, v.inodes[p].sectors)[k], i)
    requires DirDelete.Removed(v.Maps(), v.a, v.bits, v.lo, v.inodes[p], k, a', bits1, d')
    requires IsFile(v.AsTree(), p, j) && v.AsTree()[p][j].ino == i
    requires |bits2| == |bits1| && Agree(v.With(p, d', a', bits1).Maps() - {i as nat}, a', bits2, v.lo)
    requires v.Sound() && Linked(v.AsTree(), v.AsFiles().Keys)
    ensures d'.no == p && p as nat in v.AsTree()
    ensures var w := Less(v.With(p, d', a', bits1), i, bits2);
            && w.Sound() && Linked(w.AsTree(), w.AsFiles().Keys)
            && w.AsTree() == v.AsTree()[p as nat := Deleted(v.AsTree()[p], i)] && w.AsFiles() == v.AsFiles() - {i as nat}
  {
    hide Agree, DirDelete.Removed, Volume.Sound, Volume.AsTree, Volume.AsFiles, Volume.Maps, Matches, Deleted, Slots, Linked;
    FileLive(v, p, j, i);
    EntryDeleted(v, p, k, i, a', bits1, d');
    Dropped(v.With(p, d', a', bits1), Less(v.With(p, d', a', bits1), i, bits2), i);
    UnlinkLinks(v.AsTree(), v.AsFiles().Keys, p, j, i);
    var w := Less(v.With(p, d', a', bits1), i, bits2);
    assert w.AsTree() == v.AsTree()[p as nat := Deleted(v.AsTree()[p], i)];
    assert w.AsFiles().Keys == v.AsFiles().Keys - {i as nat};
  }

  /** sys_unlink, on everything but the cache. */
  lemma UnlinkedWhole(v: Volume, table: seq<seq<byte>>, numbers: seq<bool>, p: u32, j: nat, k: int, i: u32,
                      a': seq<Sector>, bits1: seq<bool>, d': InodeData, bits2: seq<bool>)
    requires p as nat in v.dirs && p as nat in v.inodes && 0 <= k < SLOTS && Matches(Slots(v.a, v.inodes[p].sectors)[k], i)
    requires DirDelete.Removed(v.Maps(), v.a, v.bits, v.lo, v.inodes[p], k, a', bits1, d')
    requires IsFile(v.AsTree(), p, j) && v.AsTree()[p][j].ino == i && i < INODE_CNT && |numbers| == INODE_CNT
    requires |bits2| == |bits1| && Agree(v.With(p, d', a', bits1).Maps() - {i as nat}, a', bits2, v.lo)
    requires Whole(v, table, numbers)
    ensures d'.no == p && p as nat in v.AsTree()
    ensures var w := Less(v.With(p, d', a', bits1), i, bits2);
            && Whole(w, SetRecord(table, d'), numbers[i := false])
            && w.AsTree() == v.AsTree()[p as nat := Deleted(v.AsTree()[p], i)] && w.AsFiles() == v.AsFiles() - {i as nat}
  {
    hide Agree, DirDelete.Removed, Volume.Sound, Volume.AsTree, Volume.AsFiles, Volume.Maps, Matches, Deleted, Slots, Linked, IsFile,
      Numbered, Recorded, SetRecord;
    RecordOf(v, table, numbers, p);
    UnlinkedVolume(v, p, j, k, i, a', bits1, d', bits2);
    RecordSet(v.inodes, table, d');
    assert Set(v.inodes, d').Keys == v.inodes.Keys;
    NumberGone(Set(v.inodes, d'), SetRecord(table, d'), numbers, i);
  }

  // ----- sys_mkdir

  ghost predicate Made(v: Volume, w: Volume, p: nat, i: nat, d': InodeData, c: InodeData) {
    && d'.no as int == p && c.no as int == i && w.inodes == Set(Set(v.inodes, d'), c) && w.dirs == v.dirs + {i}
    && w.lo == v.lo && |w.bits| == |v.bits|
    && DirOk(w.a, d', w.lo, w.lo + |w.bits|) && DirOk(w.a, c, w.lo, w.lo + |w.bits|)
    && OthersKept(v.Maps(), p, v.a, w.a)
  }

  lemma MadeOnlyDirs(v: Volume, w: Volume, p: nat, i: nat, d': InodeData, c: InodeData)
    requires p in v.dirs && p in v.inodes && i !in v.inodes && Made(v, w, p, i, d', c)
    requires v.Sound()
    ensures OnlyDirs(v, w, {p, i})
  {
    hide Slots, Contents, Agree, DirOk, FileOk, KeptIn;
    forall j | j in w.inodes && j != p && j != i ensures SameIn(v, w, j) {
      SoundInode(v, j);
      assert KeptIn(v.Maps()[j], v.a, w.a);
      InodeKept(v, w, j);
    }
  }

  /** sys_mkdir, on the volume. */
  lemma DirMade(v: Volume, w: Volume, p: u32, k: nat, name: string, i: u32, d': InodeData, c: InodeData)
    requires p as nat in v.dirs && p as nat in v.inodes && i as nat !in v.inodes && CanAdd(v.AsTree(), p, k, name, i)
    requires Made(v, w, p, i, d', c) && Agree(w.Maps(), w.a, w.bits, w.lo)
    requires w.AsTree() == WithSlot(v.AsTree()[i as nat := NewDir(i, p)], p, k, DirEntry(name, i, FT_DIRECTORY))
    requires v.Sound() && Linked(v.AsTree(), v.AsFiles().Keys)
    ensures w.Sound() && Linked(w.AsTree(), w.AsFiles().Keys)
    ensures Does(v.AsTree(), Mkdir(p, k, name, i), w.AsTree()) && w.AsFiles() == v.AsFiles()
  {
    hide Made, Volume.Sound, Volume.AsTree, Volume.AsFiles, WithSlot, Volume.Maps, Linked, CanAdd, FreeInode, NewDir, Agree, OnlyDirs;
    MadeOnlyDirs(v, w, p, i, d', c);
    DirsChanged(v, w, {p as nat, i as nat});
    CreatingIs(v.AsTree(), p, k, name, i);
    MkdirLinks(v.AsTree(), v.AsFiles().Keys, p, k, name, i);
  }

  /** sys_mkdir, on everything but the cache. */
  lemma MadeWhole(v: Volume, table: seq<seq<byte>>, numbers: seq<bool>, w: Volume, p: u32, k: nat, name: string, i: u32, d': InodeData, c: InodeData)
    requires p as nat in v.dirs && p as nat in v.inodes && i as nat !in v.inodes && CanAdd(v.AsTree(), p, k, name, i)
    requires Made(v, w, p, i, d', c) && Agree(w.Maps(), w.a, w.bits, w.lo) && i < INODE_CNT && |numbers| == INODE_CNT
    requires w.AsTree() == WithSlot(v.AsTree()[i as nat := NewDir(i, p)], p, k, DirEntry(name, i, FT_DIRECTORY))
    requires Whole(v, table, numbers)
    ensures Whole(w, SetRecord(SetRecord(table, d'), c), numbers[i := true]) <==> i as int < 256
    ensures Does(v.AsTree(), Mkdir(p, k, name, i), w.AsTree()) && w.AsFiles() == v.AsFiles()
  {
    hide DirOk, OthersKept, Volume.Sound, Volume.AsTree, Volume.AsFiles, Volume.Maps, Linked, CanAdd, Does, Numbered, Recorded,
      SetRecord, WithSlot, NewDir, Agree;
    RecordOf(v, table, numbers, p);
    DirMade(v, w, p, k, name, i, d', c);
    NumbersSet(v.inodes, numbers, d', c);
    RecordsSet(v.inodes, table, d', c);
  }

  // ----- sys_rmdir

  ghost predicate Gone(v: Volume, w: Volume, p: nat, i: nat, d': InodeData) {
    && d'.no as int == p && w.inodes == Set(v.inodes, d') - {i} && w.dirs == v.dirs - {i}
    && w.lo == v.lo && |w.bits| == |v.bits|
    && DirOk(w.a, d', w.lo, w.lo + |w.bits|) && OthersKept(v.Maps(), p, v.a, w.a)
  }

  lemma GoneOnlyDirs(v: Volume, w: Volume, p: nat, i: nat, d': InodeData)
    requires p in v.dirs && p in v.inodes && i in v.dirs && Gone(v, w, p, i, d')
    requires v.Sound()
    ensures OnlyDirs(v, w, {p})
  {
    hide Slots, Contents, Agree, DirOk, FileOk, KeptIn;
    forall j | j in w.inodes && j != p ensures SameIn(v, w, j) {
      SoundInode(v, j);
      assert KeptIn(v.Maps()[j], v.a, w.a);
      InodeKept(v, w, j);
    }
  }

  /** dir_remove, on the volume. */
  lemma DirRemoved(v: Volume, w: Volume, p: u32, i: u32, d': InodeData)
    requires p as nat in v.dirs && p as nat in v.inodes && i as nat in v.dirs && i != 0
    requires Gone(v, w, p, i, d') && Agree(w.Maps(), w.a, w.bits, w.lo)
    requires p as nat in v.AsTree() && i as nat in v.AsTree() && OnlyDots(v.AsTree()[i]) && (Parent(v.AsTree(), i) == p as nat || p == i)
    requires w.AsTree() == TreeOps.Removed(v.AsTree(), p, i)
    requires v.Sound() && Linked(v.AsTree(), v.AsFiles().Keys)
    ensures w.Sound() && w.AsFiles() == v.AsFiles() && (Linked(w.AsTree(), w.AsFiles().Keys) <==> p != i)
  {
    hide Gone, Volume.Sound, Volume.AsTree, Volume.AsFiles, Volume.Maps, WellFormed, HasFile, Agree, OnlyDirs, OnlyDots, TreeOps.Removed;
    GoneOnlyDirs(v, w, p, i, d');
    DirsChanged(v, w, {p as nat});
    RmdirLinks(v.AsTree(), v.AsFiles().Keys, p, i);
  }

  /** dir_remove, on everything but the cache: it stays whole if and only if the directory was not
      looked for in itself. */
  lemma RemovedWhole(v: Volume, table: seq<seq<byte>>, numbers: seq<bool>, w: Volume, p: u32, i: u32, d': InodeData, table': seq<seq<byte>>)
    requires p as nat in v.dirs && p as nat in v.inodes && i as nat in v.dirs && i != 0 && i < INODE_CNT && |numbers| == INODE_CNT
    requires Gone(v, w, p, i, d') && Agree(w.Maps(), w.a, w.bits, w.lo) && SyncedOrSame(v.inodes[p], d', table, table')
    requires p as nat in v.AsTree() && i as nat in v.AsTree() && OnlyDots(v.AsTree()[i]) && (Parent(v.AsTree(), i) == p as nat || p == i)
    requires w.AsTree() == TreeOps.Removed(v.AsTree(), p, i)
    requires Whole(v, table, numbers)
    ensures Whole(w, table', numbers[i := false]) <==> p != i
    ensures w.AsFiles() == v.AsFiles()
  {
    hide DirOk, OthersKept, Volume.Sound, Volume.AsTree, Volume.AsFiles, Volume.Maps, Linked, OnlyDots, Numbered, RecordIs,
      EncodeInode, Agree, TreeOps.Removed;
    RecordOf(v, table, numbers, p);
    DirRemoved(v, w, p, i, d');
    if d' == v.inodes[p] { assert Set(v.inodes, d') == v.inodes; }
    else { RecordSet(v.inodes, table, d'); }
    assert Set(v.inodes, d').Keys == v.inodes.Keys;
    NumberGone(Set(v.inodes, d'), table', numbers, i);
  }

  /** The size test is right. */
  lemma EmptyIsDots(a: seq<Sector>, d: InodeData, lo: nat, hi: nat)
    requires DirOk(a, d, lo, hi)
    ensures d.size == 2 * ENTRY_SIZE <==> OnlyDots(Slots(a, d.sectors))
  {
    hide Slots, DirMap, LiveEntries;
    var s := Slots(a, d.sectors);
    DirRead.EmptyMeansDotsOnly(a, d, lo, hi);
    if OnlyDots(s) {
      DotSlots(s);
      DotsOnlyLive(s, |s|);
      assert s[..|s|] == s;
    } else {
      var j :| 2 <= j < |s| && s[j].Live();
      LiveInMap(s, j);
      assert s[j].name != s[0].name && s[j].name != s[1].name;
    }
  }

  lemma MapsGone(v: Volume, w: Volume, p: nat, i: nat, d': InodeData)
    requires p in v.dirs && p in v.inodes && d'.no as int == p && w.inodes == Set(v.inodes, d') - {i} && w.dirs == v.dirs - {i}
    ensures w.Maps() == v.Maps()[p := d'.sectors] - {i} && w.DirMaps() == v.DirMaps()[p := d'.sectors] - {i}
  {
  }

  // ----- the cache

  /** Every cached inode is live and holds what the table holds. */
  ghost predicate Cached(inodes: map<nat, InodeData>, open: seq<Inode>)
    reads open
  {
    forall e :: e in open ==> e.iNo as nat in inodes && e.Data() == inodes[e.iNo]
  }

  lemma IsCached(open: seq<Inode>, e: Inode)
    requires e in open
    ensures IsOpen(open, e.iNo)
  {
  }

  /** After a number is given back, no cached inode may carry it. */
  lemma NumberLeft(inodes: map<nat, InodeData>, open: seq<Inode>, i: nat)
    requires Cached(inodes, open)
    ensures Cached(inodes - {i}, open) <==> !IsOpen(open, i)
  {
  }

  ghost predicate IsOpen(open: seq<Inode>, i: nat)
    reads open
  {
    exists e :: e in open && e.iNo as nat == i
  }

  lemma CachedData(inodes: map<nat, InodeData>, open: seq<Inode>, e: Inode)
    requires Cached(inodes, open) && e in open
    ensures e.iNo as nat in inodes && e.Data() == inodes[e.iNo]
  {
  }

  /** Only numbers and open counts matter to the list. */
  twostate lemma CacheKept(part: Partition)
    requires old(part.CacheOk()) && part.openInodes == old(part.openInodes)
    requires forall e :: e in part.openInodes ==> e.iNo == old(e.iNo) && e.iOpenCnts == old(e.iOpenCnts)
    ensures part.CacheOk()
  {
  }

  /** Closing an inode whose number has been given back: nobody else may have it open. */
  method CloseGone(part: Partition, inode: Inode, ghost inodes: map<nat, InodeData>)
    requires part.CacheOk() && Cached(inodes, part.openInodes) && inode in part.openInodes
    modifies part`openInodes, inode`iOpenCnts
    ensures part.CacheOk() && (Cached(inodes - {inode.iNo as nat}, part.openInodes) <==> old(inode.iOpenCnts) == 1)
  {
    NoOtherCached(part, inode);
    ghost var held := part.openInodes;
    part.InodeClose(inode);
    if old(inode.iOpenCnts) == 1 {
      ghost var k :| Without(held, k, inode, part.openInodes);
      assert forall e :: e in part.openInodes ==> e in held && e != inode;
    }
  }

  /** A new inode goes to the front of the open list. */
  method EnterCache(part: Partition, inode: Inode, ghost inodes: map<nat, InodeData>)
    requires part.CacheOk() && Cached(inodes, part.openInodes) && inode.iNo as nat !in inodes
    modifies part`openInodes, inode`iOpenCnts
    ensures part.openInodes == [inode] + old(part.openInodes) && inode.iOpenCnts == 1
    ensures part.CacheOk() && Cached(Set(inodes, inode.Data()), part.openInodes)
  {
    inode.iOpenCnts := 1;
    part.openInodes := [inode] + part.openInodes;
  }

  /** sync_dir_entry, and the directory's own inode. */
  method AddEntry(part: Partition, dir: Inode, e: DirEntry, ghost files: map<nat, BlockMap>, ghost k: nat) returns (ghost a1: seq<Sector>)
    requires part.Valid() && DirState(files, part.disk.sectors, part.BlockBits(), part.dataStart, dir.Data())
    requires Addable(Slots(part.disk.sectors, dir.iSectors), e) && dir.iNo < INODE_CNT
    requires FirstDead(Slots(part.disk.sectors, dir.iSectors), k) && k < PER_SEC * DIRECT
    requires dir.iSectors[k / PER_SEC] == 0 ==> FreeCount(part.BlockBits()) > 0
    modifies part.disk, part.blockBitmap.bits, dir`iSectors, dir`iSize
    ensures part.Valid() && SameOutsideTable(a1, part.disk.sectors, part.inodeTable)
    ensures Added(files, old(part.disk.sectors), old(part.BlockBits()), part.dataStart, old(dir.Data()), k, e, a1, part.BlockBits(), dir.Data())
    ensures Table(part.disk.sectors, part.inodeTable) == SetRecord(Table(old(part.disk.sectors), part.inodeTable), dir.Data())
  {
    hide Masked, Table, EncodeInode, Slots, DirState, Addable, Added, FirstDead, FreeCount, Unpack;
    var ok := SyncDirEntry(part, dir, e, files, k);
    a1 := part.disk.sectors;
    var synced := part.InodeSync(dir, 2 * SECTOR_SIZE);
  }

  /** file_create without the cache: a number, an entry, and both inodes. */
  method NewFile(part: Partition, parent: Inode, name: string, ghost k: nat, ghost v: Volume) returns (inode: Inode)
    requires part.Valid() && v.a == part.disk.sectors && v.bits == part.BlockBits() && v.lo == part.dataStart
    requires parent.iNo as nat in v.dirs && parent.iNo as nat in v.inodes && v.inodes[parent.iNo] == parent.Data()
    requires FileName(name) && IsComponent(name) && First(Slots(part.disk.sectors, parent.iSectors), name) == -1
    requires FirstDead(Slots(part.disk.sectors, parent.iSectors), k) && k < PER_SEC * DIRECT
    requires parent.iSectors[k / PER_SEC] == 0 ==> FreeCount(part.BlockBits()) > 0
    requires Whole(v, Table(part.disk.sectors, part.inodeTable), part.inodeBitmap.View())
    modifies part.disk, part.blockBitmap.bits, part.inodeBitmap.bits, parent`iSectors, parent`iSize
    ensures part.Valid() && fresh(inode) && inode.iNo as nat !in v.inodes && IsFirstFit(old(part.inodeBitmap.View()), 1, inode.iNo)
    ensures inode.iSize == 0 && !inode.writeDeny
    ensures var w := v.With(parent.iNo, parent.Data(), part.disk.sectors, part.BlockBits())
                      .With(inode.iNo, inode.Data(), part.disk.sectors, part.BlockBits());
            && (Whole(w, Table(part.disk.sectors, part.inodeTable), part.inodeBitmap.View()) <==> inode.iNo as int < 256)
            && Does(v.AsTree(), Create(parent.iNo, k, name, inode.iNo), w.AsTree())
            && w.AsFiles() == v.AsFiles()[inode.iNo as nat := []]
    ensures inode.iNo as int >= 256 ==> Overwritten(v.inodes, Table(part.disk.sectors, part.inodeTable), inode.iNo as nat % 256)
  {
    hide Masked, Table, EncodeInode, Whole, Volume.AsTree, Volume.AsFiles, Volume.Maps, IsTable,
      Unpack, Slots, DirState, Addable, Added, FirstDead, IsFirstFit, FreeCount, CanAdd, FileName,
      SameOutsideTable, Does;
    ghost var table, numbers := Table(part.disk.sectors, part.inodeTable), part.inodeBitmap.View();
    NumbersLeft(v, table, numbers);
    var inodeNo := InodeBitmapAlloc(part);
    CanCreate(v, table, numbers, parent.iNo, k, name, inodeNo);
    inode := new Inode.Init(inodeNo);
    assert inode.Data() == InodeData(inodeNo, 0, EMPTY);
    ghost var a1 := AddEntry(part, parent, DirEntry(name, inodeNo, FT_REGULAR), v.Maps(), k);
    ghost var a2 := part.disk.sectors;
    var synced := part.InodeSync(inode, 2 * SECTOR_SIZE);
    Fronts(a1, a2, part.disk.sectors, part.inodeTable, part.dataStart);
    CreatedWhole(v, table, numbers, parent.iNo, k, name, inodeNo, a1, part.BlockBits(), parent.Data(), part.disk.sectors);
    assert Table(part.disk.sectors, part.inodeTable) == SetRecord(SetRecord(table, parent.Data()), inode.Data());
    if inode.iNo as int >= 256 { RecordLost(v, table, numbers, parent.Data(), inode.Data()); }
  }

  /** What the lookup has found is enough to delete the file. */
  lemma CanUnlink(v: Volume, table: seq<seq<byte>>, numbers: seq<bool>, p: nat, j: nat, i: u32)
    requires p in v.dirs && p in v.inodes && IsFile(v.AsTree(), p, j) && v.AsTree()[p][j].ino == i
    requires Whole(v, table, numbers)
    ensures p < 256 && v.inodes[p].no as int == p && 0 < i as int < 256 && i as nat in v.inodes && i as nat !in v.dirs && i as nat != p
    ensures DirState(v.Maps(), v.a, v.bits, v.lo, v.inodes[p]) && DirDelete.HasEntry(Slots(v.a, v.inodes[p].sectors), i)
  {
    hide Volume.Sound, Volume.AsTree, Volume.AsFiles, Volume.Maps, Slots, Linked, DirState, Numbered, RecordIs;
    RecordOf(v, table, numbers, p);
    DirOfVolume(v, p);
    FileLive(v, p, j, i);
    RecordOf(v, table, numbers, i);
    FileMatches(v.Maps(), v.a, v.bits, v.lo, v.inodes[p], j);
  }

  lemma FileMatches(files: map<nat, BlockMap>, a: seq<Sector>, bits: seq<bool>, lo: nat, d: InodeData, j: nat)
    requires DirState(files, a, bits, lo, d) && j < SLOTS && Slots(a, d.sectors)[j].ftype == FT_REGULAR
    ensures DirDelete.HasEntry(Slots(a, d.sectors), Slots(a, d.sectors)[j].ino)
  {
    hide Slots, DirState, SlotsOk;
    DirectOf(files, a, bits, lo, d);
    FileNotDot(Slots(a, d.sectors), j);
    assert Matches(Slots(a, d.sectors)[j], Slots(a, d.sectors)[j].ino);
  }

  /** After the entry is gone, the inode can still be opened. */
  lemma StillOpens(part: Partition, v: Volume, table: seq<seq<byte>>, numbers: seq<bool>, d': InodeData, i: nat)
    requires part.Valid() && i < INODE_CNT && i in v.inodes && d'.no as nat in v.inodes && i != d'.no as int
    requires Table(part.disk.sectors, part.inodeTable) == SetRecord(table, d') && Cached(Set(v.inodes, d'), part.openInodes)
    requires Whole(v, table, numbers)
    ensures Opens(part, i, v.inodes[i].sectors)
  {
    hide Table, Masked, Unpack, DecodeInode, EncodeInode, Volume.Sound, Linked, Numbered, Volume.AsTree, Volume.AsFiles;
    RecordOf(v, table, numbers, i);
    RecordOf(v, table, numbers, d'.no);
  }

  lemma DeletedAgrees(v: Volume, table: seq<seq<byte>>, numbers: seq<bool>, p: nat, k: int, i: u32, a': seq<Sector>, bits': seq<bool>, d': InodeData)
    requires p in v.dirs && p in v.inodes && i as nat in v.inodes && i as nat != p
    requires DirDelete.Removed(v.Maps(), v.a, v.bits, v.lo, v.inodes[p], k, a', bits', d')
    requires 0 <= k < SLOTS ==> Matches(Slots(v.a, v.inodes[p].sectors)[k], i)
    requires Whole(v, table, numbers)
    ensures 0 <= k < SLOTS && |bits'| == |v.bits|
    ensures var files := v.With(p, d', a', bits').Maps();
            Agree(files, a', bits', v.lo) && i as nat in files && files[i as nat] == v.inodes[i].sectors
  {
    hide Agree, DirState, OthersKept, Slots, DirMap, Volume.AsTree, Volume.AsFiles, Linked, Numbered, Recorded, Matches, Volume.InodeOk;
    EntryDeleted(v, p, k, i, a', bits', d');
  }

  /** delete_dir_entry and inode_release, for a file. */
  method DropFile(part: Partition, parent: Inode, inodeNo: u32, ghost j: nat, ghost v: Volume)
    requires part.Valid() && v.a == part.disk.sectors && v.bits == part.BlockBits() && v.lo == part.dataStart
    requires parent.iNo as nat in v.dirs && parent.iNo as nat in v.inodes && parent in part.openInodes
    requires part.CacheOk() && Cached(v.inodes, part.openInodes)
    requires IsFile(v.AsTree(), parent.iNo, j) && v.AsTree()[parent.iNo][j].ino == inodeNo
    requires Whole(v, Table(part.disk.sectors, part.inodeTable), part.inodeBitmap.View())
    modifies part`openInodes, part.openInodes, part.disk, part.blockBitmap.bits, part.inodeBitmap.bits
    ensures part.Valid() && part.CacheOk() && part.openInodes == old(part.openInodes) && parent.iNo == old(parent.iNo)
    ensures Cached(Set(v.inodes, parent.Data()), part.openInodes) && parent.iNo as nat in v.AsTree()
    ensures forall e :: e in part.openInodes ==> e.iNo == old(e.iNo)
    ensures var w := Less(v.With(parent.iNo, parent.Data(), part.disk.sectors, part.BlockBits()), inodeNo, part.BlockBits());
            && Whole(w, Table(part.disk.sectors, part.inodeTable), part.inodeBitmap.View())
            && w.AsTree() == v.AsTree()[parent.iNo as nat := Deleted(v.AsTree()[parent.iNo], inodeNo)]
            && w.AsFiles() == v.AsFiles() - {inodeNo as nat}
  {
    hide Masked, Table, EncodeInode, Whole, Volume.AsTree, Volume.AsFiles, IsTable, Partition.CacheOk,
      Unpack, Slots, DirState, DirDelete.Removed, DirDelete.HasEntry, Matches, Deleted, Cleared, Agree, Volume.Sound, Opens, IsFile;
    ghost var table, numbers := Table(part.disk.sectors, part.inodeTable), part.inodeBitmap.View();
    CachedData(v.inodes, part.openInodes, parent);
    NoOtherCached(part, parent);
    CanUnlink(v, table, numbers, parent.iNo, j, inodeNo);
    var done;
    ghost var k;
    done, k := DirDelete.DeleteDirEntry(part, parent, inodeNo, v.Maps());
    ghost var a1, bits1, d := part.disk.sectors, part.BlockBits(), parent.Data();
    CacheKept(part);
    assert Cached(Set(v.inodes, d), part.openInodes);
    StillOpens(part, v, table, numbers, d, inodeNo);
    DeletedAgrees(v, table, numbers, parent.iNo, k, inodeNo, a1, bits1, d);
    ghost var files := v.With(parent.iNo, d, a1, bits1).Maps();
    InodeRelease(part, inodeNo, files);
    UnlinkedWhole(v, table, numbers, parent.iNo, j, k, inodeNo, a1, bits1, d, part.BlockBits());
  }

  /** Some entry of the file table is for the inode. */
  method FindInTable(fileTable: seq<Inode?>, inodeNo: u32) returns (inUse: bool)
    ensures inUse <==> exists m :: 0 <= m < |fileTable| && fileTable[m] != null && fileTable[m].iNo == inodeNo
  {
    var fileIdx := 0;
    while fileIdx < |fileTable|
      invariant fileIdx <= |fileTable|
      invariant forall m :: 0 <= m < fileIdx ==> fileTable[m] == null || fileTable[m].iNo != inodeNo
    {
      var fdInode := fileTable[fileIdx];
      if fdInode != null && fdInode.iNo == inodeNo {
        return true;
      }
      fileIdx := fileIdx + 1;
    }
    return false;
  }

  lemma VolumeOnDisk(v: Volume)
    requires v.Sound()
    ensures OnDisk(v.DirMaps(), v.Maps(), v.a, v.bits, v.lo)
  {
    hide Agree, DirectMap, Volume.InodeOk, Slots, DirState, SlotsOk;
    DirOfEach(v);
    forall d | d in v.DirMaps() ensures d in v.Maps() && v.Maps()[d] == v.DirMaps()[d] && DirectMap(v.DirMaps()[d], v.lo, v.lo + |v.bits|) {
      DirectOf(v.Maps(), v.a, v.bits, v.lo, v.inodes[d]);
    }
  }

  lemma DirOfEach(v: Volume)
    requires v.Sound()
    ensures Agree(v.Maps(), v.a, v.bits, v.lo)
    ensures forall d :: d in v.DirMaps() ==> d in v.inodes && DirState(v.Maps(), v.a, v.bits, v.lo, v.inodes[d]) && v.inodes[d].no as int == d
  {
    hide Volume.Sound, DirState, Volume.AsTree, Slots;
    AgreeOfVolume(v);
    forall d | d in v.DirMaps() ensures d in v.inodes && DirState(v.Maps(), v.a, v.bits, v.lo, v.inodes[d]) && v.inodes[d].no as int == d {
      DirOfVolume(v, d);
    }
  }

  lemma AgreeOfVolume(v: Volume)
    requires v.Sound()
    ensures Agree(v.Maps(), v.a, v.bits, v.lo)
  {
    hide Agree, Volume.InodeOk;
  }

  lemma WholeOnDisk(v: Volume, table: seq<seq<byte>>, numbers: seq<bool>, p: nat)
    requires p in v.dirs && p in v.inodes && Whole(v, table, numbers)
    ensures OnDisk(v.DirMaps(), v.Maps(), v.a, v.bits, v.lo) && p in v.DirMaps() && v.DirMaps()[p] == v.inodes[p].sectors
    ensures v.AsTree() == TreeOn(v.a, v.DirMaps())
    ensures DirState(v.Maps(), v.a, v.bits, v.lo, v.inodes[p]) && p < 256 && v.inodes[p].no as int == p
  {
    hide Volume.Sound, Linked, Recorded, Numbered, OnDisk, TreeOn, DirState, Volume.Maps;
    VolumeOnDisk(v);
    DirOfVolume(v, p);
    RecordOf(v, table, numbers, p);
  }

  lemma MapsMade(v: Volume, w: Volume, p: nat, i: nat, d': InodeData, c: InodeData)
    requires p in v.dirs && p in v.inodes && i !in v.inodes && d'.no as int == p && c.no as int == i
    requires w.inodes == Set(Set(v.inodes, d'), c) && w.dirs == v.dirs + {i}
    ensures w.Maps() == v.Maps()[i := c.sectors][p := d'.sectors] && w.DirMaps() == v.DirMaps()[i := c.sectors][p := d'.sectors]
  {
  }

  lemma AgreeOf(dirs: map<nat, BlockMap>, files: map<nat, BlockMap>, a: seq<Sector>, bits: seq<bool>, lo: nat)
    requires OnDisk(dirs, files, a, bits, lo)
    ensures Agree(files, a, bits, lo)
  {
    hide Agree, DirectMap;
  }

  /** sys_mkdir without the cache, in which the new directory has no place. */
  method NewDirectory(part: Partition, parent: Inode, name: string, ghost k: nat, ghost v: Volume) returns (newDirInode: Inode)
    requires part.Valid() && v.a == part.disk.sectors && v.bits == part.BlockBits() && v.lo == part.dataStart
    requires parent.iNo as nat in v.dirs && parent.iNo as nat in v.inodes && v.inodes[parent.iNo] == parent.Data()
    requires FileName(name) && IsComponent(name) && First(Slots(part.disk.sectors, parent.iSectors), name) == -1
    requires FirstDead(Slots(part.disk.sectors, parent.iSectors), k) && k < PER_SEC * DIRECT && FreeCount(part.BlockBits()) >= 2
    requires Whole(v, Table(part.disk.sectors, part.inodeTable), part.inodeBitmap.View())
    modifies part.disk, part.blockBitmap.bits, part.inodeBitmap.bits, parent`iSectors, parent`iSize
    ensures part.Valid() && fresh(newDirInode) && newDirInode.iNo as nat !in v.inodes
    ensures IsFirstFit(old(part.inodeBitmap.View()), 1, newDirInode.iNo)
    ensures var w := Volume(Set(Set(v.inodes, parent.Data()), newDirInode.Data()), v.dirs + {newDirInode.iNo as nat},
                            part.disk.sectors, part.BlockBits(), part.dataStart);
            && (Whole(w, Table(part.disk.sectors, part.inodeTable), part.inodeBitmap.View()) <==> newDirInode.iNo as int < 256)
            && Does(v.AsTree(), Mkdir(parent.iNo, k, name, newDirInode.iNo), w.AsTree())
            && w.AsFiles() == v.AsFiles()
    ensures newDirInode.iNo as int >= 256 ==> Overwritten(v.inodes, Table(part.disk.sectors, part.inodeTable), newDirInode.iNo as nat % 256)
  {
    hide Masked, Table, EncodeInode, Whole, Volume.AsFiles, Volume.DirMaps, IsTable, Set,
      Unpack, Slots, DirState, Addable, FirstDead, IsFirstFit, FreeCount, CanAdd, FileName, Does, OnDisk, TreeOn, WithSlot, NewDir,
      DirOk, OthersKept, Agree;
    ghost var table, numbers := Table(part.disk.sectors, part.inodeTable), part.inodeBitmap.View();
    NumbersLeft(v, table, numbers);
    var inodeNo := InodeBitmapAlloc(part);
    CanCreate(v, table, numbers, parent.iNo, k, name, inodeNo);
    WholeOnDisk(v, table, numbers, parent.iNo);
    InFiles(v.DirMaps(), v.Maps(), v.a, v.bits, v.lo, parent.iNo);
    ghost var files, dirs;
    newDirInode, files, dirs := MakeDir(part, parent, inodeNo, name, k, v.Maps(), v.DirMaps());
    ghost var w := Volume(Set(Set(v.inodes, parent.Data()), newDirInode.Data()), v.dirs + {inodeNo as nat},
                          part.disk.sectors, part.BlockBits(), part.dataStart);
    MapsMade(v, w, parent.iNo, inodeNo, parent.Data(), newDirInode.Data());
    AgreeOf(dirs, files, w.a, w.bits, w.lo);
    MadeWhole(v, table, numbers, w, parent.iNo, k, name, inodeNo, parent.Data(), newDirInode.Data());
    assert Table(part.disk.sectors, part.inodeTable) == SetRecord(SetRecord(table, parent.Data()), newDirInode.Data());
    if inodeNo as int >= 256 { RecordLost(v, table, numbers, parent.Data(), newDirInode.Data()); }
  }

  lemma EmptyInTree(v: Volume, table: seq<seq<byte>>, numbers: seq<bool>, i: nat)
    requires i in v.dirs && i in v.inodes
    requires Whole(v, table, numbers)
    ensures i in v.AsTree() && (v.inodes[i].size == 2 * ENTRY_SIZE <==> OnlyDots(v.AsTree()[i]))
  {
    hide Volume.Sound, Volume.AsTree, Volume.AsFiles, Linked, Recorded, Numbered, OnlyDots, Slots, Agree, DirOk;
    DirOfVolume(v, i);
    EmptyIsDots(v.a, v.inodes[i], v.lo, v.lo + |v.bits|);
  }

  /** dir_remove without the cache. */
  method RemoveDirectory(part: Partition, parent: Inode, child: Inode, ghost v: Volume)
    requires part.Valid() && v.a == part.disk.sectors && v.bits == part.BlockBits() && v.lo == part.dataStart
    requires parent.iNo as nat in v.dirs && parent.iNo as nat in v.inodes && parent in part.openInodes
    requires child.iNo as nat in v.dirs && child.iNo as nat in v.inodes && child in part.openInodes && child.iNo != 0 && child.iSize == 2 * ENTRY_SIZE
    requires Parent(v.AsTree(), child.iNo) == parent.iNo as nat || parent.iNo == child.iNo
    requires part.CacheOk() && Cached(v.inodes, part.openInodes)
    requires Whole(v, Table(part.disk.sectors, part.inodeTable), part.inodeBitmap.View())
    modifies part`openInodes, part.openInodes, part.disk, part.blockBitmap.bits, part.inodeBitmap.bits
    ensures part.Valid() && part.CacheOk() && part.openInodes == old(part.openInodes)
    ensures parent.iNo == old(parent.iNo) && child.iNo == old(child.iNo) && Cached(Set(v.inodes, parent.Data()), part.openInodes)
    ensures forall e :: e in part.openInodes ==> e.iOpenCnts == old(e.iOpenCnts)
    ensures parent.iNo as nat in v.AsTree()
    ensures var w := Volume(Set(v.inodes, parent.Data()) - {child.iNo as nat}, v.dirs - {child.iNo as nat},
                            part.disk.sectors, part.BlockBits(), part.dataStart);
            && (Whole(w, Table(part.disk.sectors, part.inodeTable), part.inodeBitmap.View()) <==> parent.iNo != child.iNo)
            && w.AsTree() == TreeOps.Removed(v.AsTree(), parent.iNo, child.iNo) && w.AsFiles() == v.AsFiles()
  {
    hide Masked, Table, Whole, Volume.AsFiles, Volume.Maps, Volume.DirMaps, IsTable, Partition.CacheOk, Unpack, Slots, DirState, OnDisk, TreeOn,
      TreeOps.Removed, DirOk, OthersKept, Agree, OnlyDots, SyncedOrSame;
    ghost var table, numbers, p, i := Table(part.disk.sectors, part.inodeTable), part.inodeBitmap.View(), parent.iNo, child.iNo;
    CachedData(v.inodes, part.openInodes, parent);
    CachedData(v.inodes, part.openInodes, child);
    NoOtherCached(part, parent);
    NoOtherCached(part, child);
    WholeOnDisk(v, table, numbers, p);
    WholeOnDisk(v, table, numbers, i);
    EmptyInTree(v, table, numbers, p);
    EmptyInTree(v, table, numbers, i);
    ghost var files, dirs := DirRemove(part, parent, child, v.Maps(), v.DirMaps());
    ghost var w := Volume(Set(v.inodes, parent.Data()) - {i as nat}, v.dirs - {i as nat}, part.disk.sectors, part.BlockBits(), part.dataStart);
    MapsGone(v, w, p, i, parent.Data());
    AgreeOf(dirs, files, w.a, w.bits, w.lo);
    RemovedWhole(v, table, numbers, w, p, i, parent.Data(), Table(part.disk.sectors, part.inodeTable));
  }

  lemma KnownDirs(v: Volume, table: seq<seq<byte>>, numbers: seq<bool>, p: nat, i: nat)
    requires p in v.dirs && i in v.dirs
    requires Whole(v, table, numbers)
    ensures p in v.inodes && i in v.inodes && p in v.AsTree() && i in v.AsTree() && i < 256
    ensures v.inodes[i].size == 2 * ENTRY_SIZE <==> OnlyDots(v.AsTree()[i])
  {
    hide Volume.Sound, Volume.AsTree, Volume.AsFiles, Linked, RecordIs, Numbered, OnlyDots;
    TreeKeys(v);
    EmptyInTree(v, table, numbers, i);
    EmptyInTree(v, table, numbers, p);
  }

  class FileSystem {
    const part: Partition
    ghost var inodes: map<nat, InodeData>
    ghost var dirs: set<nat>

    ghost function Vol(): Volume
      requires part.Valid()
      reads this, part.disk, part.blockBitmap.bits
    {
      Volume(inodes, dirs, part.disk.sectors, part.BlockBits(), part.dataStart)
    }

    ghost function Tree(): Trees.Tree
      requires part.Valid()
      reads this, part.disk, part.blockBitmap.bits
    {
      Vol().AsTree()
    }

    /** The contents of the files, under their inode numbers. */
    ghost function Files(): map<nat, seq<byte>>
      requires part.Valid()
      reads this, part.disk, part.blockBitmap.bits
    {
      Vol().AsFiles()
    }

    ghost function State(): Fs
      requires part.Valid()
      reads this, part.disk, part.blockBitmap.bits
    {
      Fs(Tree(), Files())
    }

    ghost predicate Valid()
      reads this, part, part.openInodes, part.disk, part.blockBitmap.bits, part.inodeBitmap.bits
    {
      && part.Valid() && Whole(Vol(), Table(part.disk.sectors, part.inodeTable), part.inodeBitmap.View())
      && part.CacheOk() && Cached(inodes, part.openInodes)
    }

    /** A formatted partition, mounted. */
    constructor (disk: Disk, startLba: nat, secCnt: nat, past: seq<bv8>)
      requires secCnt > SECTS_BEFORE && FormattedBlocks(secCnt) >= 8 && |past| == 2
      requires FormattedBlocks(secCnt) % BITS_PER_SECTOR != 0 || DivRoundUp(FormattedBlocks(secCnt), BITS_PER_SECTOR) < TABLE_SECTS
      requires startLba + secCnt < |disk.sectors| < 0x1_0000_0000
      modifies disk
      ensures Valid() && State() == Fs(FORMATTED, map[]) && part.openInodes == []
    {
      hide DirState, Slots, Masked, Table, EncodeInode, OneBlock, FORMATTED, Linked, Volume.Sound;
      var mounted := FormatAndMount(disk, startLba, secCnt, past);
      part, inodes, dirs := mounted, map[0 := Root(mounted.dataStart)], {0};
      new;
      FormattedVolume(disk.sectors, part.BlockBits(), part.dataStart);
      assert Vol() == Volume(map[0 := Root(part.dataStart)], {0}, disk.sectors, part.BlockBits(), part.dataStart);
      assert Files().Keys == {};
      assert Numbered(inodes.Keys, part.inodeBitmap.View());
      assert RecordIs(Table(disk.sectors, part.inodeTable), 0, Root(part.dataStart));
      assert Recorded(inodes, Table(disk.sectors, part.inodeTable));
    }

    /** Opening an inode by its number, and closing it. */
    method Open(inodeNo: nat) returns (inode: Inode)
      requires Valid() && inodeNo in inodes
      modifies part`openInodes, part.openInodes
      ensures Valid() && State() == old(State())
      ensures inode in part.openInodes && inode.iNo as nat == inodeNo && inode.Data() == inodes[inodeNo]
      ensures if old(IsOpen(part.openInodes, inodeNo)) then part.openInodes == old(part.openInodes) && inode.iOpenCnts > 1
              else fresh(inode) && part.openInodes == [inode] + old(part.openInodes) && inode.iOpenCnts == 1 && !inode.writeDeny
      ensures forall e :: e in old(part.openInodes) ==>
                e.Data() == old(e.Data()) && e.iOpenCnts == old(e.iOpenCnts) + (if e == inode then 1 else 0)
    {
      hide Masked, Table, DecodeInode, Whole, Volume.AsTree, Volume.AsFiles, Partition.CacheOk, Unpack;
      RecordOf(Vol(), Table(part.disk.sectors, part.inodeTable), part.inodeBitmap.View(), inodeNo);
      ghost var open := part.openInodes;
      inode := part.InodeOpen(inodeNo);
      forall e | e in part.openInodes ensures e.iNo as nat in inodes && e.Data() == inodes[e.iNo] {
        if e in open { assert e.Data() == old(e.Data()); }
      }
    }

    method Close(inode: Inode)
      requires Valid() && inode in part.openInodes
      modifies part`openInodes, inode`iOpenCnts
      ensures Valid() && State() == old(State()) && inode.iOpenCnts == old(inode.iOpenCnts) - 1
      ensures if old(inode.iOpenCnts) > 1 then part.openInodes == old(part.openInodes)
              else inode !in part.openInodes && exists k :: Without(old(part.openInodes), k, inode, part.openInodes)
    {
      hide Masked, Table, DecodeInode, Whole, Volume.AsTree, Volume.AsFiles, Unpack;
      part.InodeClose(inode);
    }

    /** The rest of file_create, once the parent is found and the name is not: number, entry, both
        inodes, and the place in the cache. The file system stays whole if and only if the number
        is below 256; from there on the record of another inode is lost. */
    method CreateFile(parent: Inode, name: string, ghost k: nat) returns (inode: Inode)
      requires Valid() && parent in part.openInodes && parent.iNo as nat in dirs
      requires FileName(name) && IsComponent(name) && First(Slots(part.disk.sectors, parent.iSectors), name) == -1
      requires FirstDead(Slots(part.disk.sectors, parent.iSectors), k) && k < PER_SEC * DIRECT
      requires parent.iSectors[k / PER_SEC] == 0 ==> FreeCount(part.BlockBits()) > 0
      modifies this, part`openInodes, part.disk, part.blockBitmap.bits, part.inodeBitmap.bits, parent`iSectors, parent`iSize
      ensures fresh(inode) && IsFirstFit(old(part.inodeBitmap.View()), 1, inode.iNo)
      ensures part.openInodes == [inode] + old(part.openInodes) && inode.iOpenCnts == 1 && inode.iSize == 0 && !inode.writeDeny
      ensures Valid() <==> inode.iNo as int < 256
      ensures part.Valid() && FsStep(old(State()), MakeFile(parent.iNo, k, name, inode.iNo), State())
      ensures inode.iNo as int >= 256 ==> Overwritten(inodes, Table(part.disk.sectors, part.inodeTable), inode.iNo as nat % 256)
    {
      hide Masked, Table, Whole, Volume.AsTree, Volume.AsFiles, Partition.CacheOk, Unpack, Slots, FirstDead, IsFirstFit, FreeCount,
        FileName, Does, IsComponent, First;
      CachedData(inodes, part.openInodes, parent);
      NoOtherCached(part, parent);
      inode := NewFile(part, parent, name, k, Vol());
      CacheKept(part);
      ghost var withParent := Set(inodes, parent.Data());
      inodes := Set(withParent, inode.Data());
      EnterCache(part, inode, withParent);
    }

    /** file_write, with its inode's record and everybody else. */
    method Write(file: File, buf: seq<byte>) returns (r: WriteResult)
      requires Valid() && file.fdInode in part.openInodes && file.fdInode.iNo as nat !in dirs && |buf| < 0xC000_0000
      requires file.fdInode.iSize + |buf| <= MAX_FILE_SIZE ==>
                 FreeCount(part.BlockBits()) >= BlocksNeeded(file.fdInode.Data(), |buf|)
      modifies this, part.disk, part.blockBitmap.bits, file, file.fdInode`iSize, file.fdInode`iSectors
      ensures r.Refused? <==> old(file.fdInode.iSize) + |buf| > MAX_FILE_SIZE
      ensures r.Panic? <==> old(file.fdInode.iSize) + |buf| == MAX_FILE_SIZE
      ensures r.Overrun? <==> old(file.fdInode.iSize) + |buf| < MAX_FILE_SIZE && Straddles(file.fdInode.iNo)
      ensures r.Refused? ==> Valid() && State() == old(State())
      ensures r.Written? ==> Valid() && FsStep(old(State()), Append(file.fdInode.iNo, buf), State())
      ensures r.Written? ==> r.n == |buf| && file.fdPos == if file.fdInode.iSize == 0 then 0xffff_ffff else file.fdInode.iSize - 1
      ensures r.Refused? ==> file.fdPos == old(file.fdPos)
    {
      hide Masked, Table, EncodeInode, Whole, Volume.AsTree, Volume.AsFiles, Volume.Maps, Partition.CacheOk, Unpack, FreeCount, BlocksNeeded,
        FileOk, Agree, Appended, Straddles, Wrap, SyncBuffer;
      ghost var v, table, numbers := Vol(), Table(part.disk.sectors, part.inodeTable), part.inodeBitmap.View();
      CachedData(inodes, part.openInodes, file.fdInode);
      NoOtherCached(part, file.fdInode);
      CanWrite(v, table, numbers, file.fdInode.iNo);
      r := FileWrite(part, file, buf, v.Maps());
      CacheKept(part);
      if r.Written? {
        WrittenWhole(v, table, numbers, file.fdInode.iNo, part.disk.sectors, part.BlockBits(), file.fdInode.Data(), buf);
        inodes := Set(inodes, file.fdInode.Data());
      }
    }

    /** The rest of sys_unlink, once the file is found in `parent`. A file in the file table is
        refused. Otherwise the file system stays whole if and only if the inode is not cached: after
        a fork, one close empties the table's entry and leaves the inode in the cache. */
    method Unlink(parent: Inode, inodeNo: u32, fileTable: seq<Inode?>, ghost j: nat) returns (ret: int)
      requires Valid() && parent in part.openInodes && parent.iNo as nat in dirs
      requires IsFile(Tree(), parent.iNo, j) && Tree()[parent.iNo][j].ino == inodeNo
      modifies this, part`openInodes, part.openInodes, part.disk, part.blockBitmap.bits, part.inodeBitmap.bits
      ensures part.Valid() && parent.iNo == old(parent.iNo) && (ret == 0 || ret == -1)
      ensures ret == -1 <==> old(exists m :: 0 <= m < |fileTable| && fileTable[m] != null && fileTable[m].iNo == inodeNo)
      ensures ret == -1 ==> Valid() && State() == old(State())
      ensures ret == 0 ==> (Valid() <==> !old(IsOpen(part.openInodes, inodeNo)))
      ensures ret == 0 ==> FsStep(old(State()), DeleteFile(parent.iNo, j, inodeNo), State())
    {
      hide Masked, Table, Whole, Volume.AsTree, Volume.AsFiles, Partition.CacheOk, Unpack, IsFile, Deleted, Cached;
      var inUse := FindInTable(fileTable, inodeNo);
      if inUse {
        return -1;
      }
      CachedData(inodes, part.openInodes, parent);
      DropFile(part, parent, inodeNo, j, Vol());
      NumberLeft(Set(inodes, parent.Data()), part.openInodes, inodeNo);
      inodes, dirs := Set(inodes, parent.Data()) - {inodeNo as nat}, dirs - {inodeNo as nat};
      return 0;
    }

    /** The rest of sys_mkdir, once the parent is found and the name is not. */
    method MakeDirectory(parent: Inode, name: string, ghost k: nat) returns (inodeNo: u32)
      requires Valid() && parent in part.openInodes && parent.iNo as nat in dirs
      requires FileName(name) && IsComponent(name) && First(Slots(part.disk.sectors, parent.iSectors), name) == -1
      requires FirstDead(Slots(part.disk.sectors, parent.iSectors), k) && k < PER_SEC * DIRECT && FreeCount(part.BlockBits()) >= 2
      modifies this, part.disk, part.blockBitmap.bits, part.inodeBitmap.bits, parent`iSectors, parent`iSize
      ensures IsFirstFit(old(part.inodeBitmap.View()), 1, inodeNo) && (Valid() <==> inodeNo as int < 256)
      ensures part.Valid() && FsStep(old(State()), MakeSubdir(parent.iNo, k, name, inodeNo), State())
      ensures inodeNo as int >= 256 ==> Overwritten(inodes, Table(part.disk.sectors, part.inodeTable), inodeNo as nat % 256)
    {
      hide Masked, Table, Whole, Volume.AsTree, Volume.AsFiles, Partition.CacheOk, Unpack, Slots, FirstDead, IsFirstFit, FreeCount,
        FileName, Does, IsComponent, First;
      CachedData(inodes, part.openInodes, parent);
      NoOtherCached(part, parent);
      var newDirInode := NewDirectory(part, parent, name, k, Vol());
      CacheKept(part);
      inodeNo := newDirInode.iNo;
      inodes, dirs := Set(Set(inodes, parent.Data()), newDirInode.Data()), dirs + {inodeNo as nat};
    }

    /** dir_remove of an open, empty directory, and dir_close. */
    method RemoveOpened(parent: Inode, child: Inode)
      requires Valid() && parent in part.openInodes && child in part.openInodes && parent.iNo as nat in dirs && child.iNo as nat in dirs
      requires child.iNo != 0 && child.iSize == 2 * ENTRY_SIZE && (Parent(Tree(), child.iNo) == parent.iNo as nat || parent.iNo == child.iNo)
      modifies this, part`openInodes, part.openInodes, part.disk, part.blockBitmap.bits, part.inodeBitmap.bits
      ensures part.Valid() && parent.iNo == old(parent.iNo) && child.iNo == old(child.iNo) && parent.iNo as nat in old(Tree())
      ensures Valid() <==> parent.iNo != child.iNo && old(child.iOpenCnts) == 1
      ensures State() == Fs(TreeOps.Removed(old(Tree()), parent.iNo, child.iNo), old(Files()))
    {
      hide Masked, Table, Whole, Volume.AsTree, Volume.AsFiles, Partition.CacheOk, Unpack, OnlyDots, TreeOps.Removed, IsOpen, Cached, Parent;
      KnownDirs(Vol(), Table(part.disk.sectors, part.inodeTable), part.inodeBitmap.View(), parent.iNo, child.iNo);
      RemoveDirectory(part, parent, child, Vol());
      ghost var withParent := Set(inodes, parent.Data());
      inodes, dirs := withParent - {child.iNo as nat}, dirs - {child.iNo as nat};
      CloseGone(part, child, withParent);
    }

    /** The rest of sys_rmdir, once the directory is found, in its parent or, under ".", in itself.
        The number is given back however many have the directory open, so the file system stays whole
        if and only if nobody has. Who found it in itself has it open, as its own parent. */
    method RemoveDir(parent: Inode, inodeNo: u32) returns (ret: int)
      requires Valid() && parent in part.openInodes && parent.iNo as nat in dirs && inodeNo as nat in dirs && inodeNo != 0
      requires Parent(Tree(), inodeNo) == parent.iNo as nat || parent.iNo == inodeNo
      modifies this, part`openInodes, part.openInodes, part.disk, part.blockBitmap.bits, part.inodeBitmap.bits
      ensures part.Valid() && parent.iNo == old(parent.iNo) && inodeNo as nat in old(Tree()) && parent.iNo as nat in old(Tree())
      ensures ret == 0 || ret == -1
      ensures ret == 0 <==> forall j :: 2 <= j < |old(Tree())[inodeNo]| ==> old(Tree())[inodeNo][j].ftype == 0
      ensures ret == -1 ==> Valid() && State() == old(State())
      ensures ret == 0 ==> (Valid() <==> !old(IsOpen(part.openInodes, inodeNo)))
      ensures ret == 0 ==> State() == Fs(TreeOps.Removed(old(Tree()), parent.iNo, inodeNo), old(Files()))
      ensures ret == 0 && parent.iNo != inodeNo ==> FsStep(old(State()), DeleteSubdir(parent.iNo, inodeNo), State())
    {
      hide Masked, Table, Whole, Volume.AsTree, Volume.AsFiles, Partition.CacheOk, Unpack, OnlyDots, TreeOps.Removed, IsOpen, Cached, Parent;
      NoneLive(Tree());
      IsCached(part.openInodes, parent);
      KnownDirs(Vol(), Table(part.disk.sectors, part.inodeTable), part.inodeBitmap.View(), parent.iNo, inodeNo);
      var child := Open(inodeNo);
      if child.iSize != 2 * ENTRY_SIZE {
        Close(child);
        return -1;
      }
      RemoveOpened(parent, child);
      return 0;
    }

    /** What is read is what the file holds. */
    method Read(file: File, count: nat) returns (r: ReadResult)
      requires Valid() && file.fdInode in part.openInodes && file.fdInode.iNo as nat !in dirs && count < 0xC000_0000
      requires file.fdPos <= file.fdInode.iSize
      modifies file`fdPos
      ensures Valid() && State() == old(State())
      ensures file.fdInode.iNo as nat in Files() && old(file.fdPos) <= |Files()[file.fdInode.iNo]|
      ensures var c, pos := Files()[file.fdInode.iNo], old(file.fdPos);
              var n := if count < |c| - pos then count else |c| - pos;
              && (r.AtEnd? <==> pos == |c| && count > 0)
              && (r.ReadPanic? <==> !r.AtEnd? && (pos + n) / 512 >= 139)
              && (r.Read? ==> r.bytes == c[pos..pos + n])
              && file.fdPos == if r.Read? then pos + n else pos
    {
      hide Masked, Table, Whole, Volume.AsTree, Volume.Maps, Partition.CacheOk, Unpack, FileOk, Agree, Contents;
      CachedData(inodes, part.openInodes, file.fdInode);
      assert Files() == Vol().AsFiles();
      CanWrite(Vol(), Table(part.disk.sectors, part.inodeTable), part.inodeBitmap.View(), file.fdInode.iNo);
      r := FileRead(part, file, count);
    }
  }

  /** An empty directory is opened and then removed: its number is free again, and still cached. */
  method RemoveWhileOpen(fs: FileSystem, parent: Inode, inodeNo: u32) returns (dir: Inode)
    requires fs.Valid() && parent in fs.part.openInodes && parent.iNo as nat in fs.dirs && inodeNo as nat in fs.dirs && inodeNo != 0
    requires inodeNo as nat in fs.inodes && inodeNo as nat in fs.Tree() && OnlyDots(fs.Tree()[inodeNo])
    requires Parent(fs.Tree(), inodeNo) == parent.iNo as nat
    modifies fs, fs.part`openInodes, fs.part.openInodes, fs.part.disk, fs.part.blockBitmap.bits, fs.part.inodeBitmap.bits
    ensures fs.part.Valid() && !fs.Valid()
  {
    hide Masked, Table, Whole, Volume.AsTree, Volume.AsFiles, Partition.CacheOk, Unpack, OnlyDots, TreeOps.Removed, Parent, Cached;
    CachedData(fs.inodes, fs.part.openInodes, parent);
    dir := fs.Open(inodeNo);
    IsCached(fs.part.openInodes, dir);
    NoneLive(fs.Tree());
    var ret := fs.RemoveDir(parent, inodeNo);
  }
}

/** Reading a directory entry by entry, and removing an empty one (fs/dir.c). */
module DirRead {
  import opened Disks
  import opened Inodes
  import opened Ownership
  import opened Dirs
  import opened Util
  import opened DirOps

  class Dir {
    const inode: Inode
    var dirPos: nat

    constructor (inode: Inode)
      ensures this.inode == inode && dirPos == 0
    {
      this.inode, dirPos := inode, 0;
    }
  }

  /** The walk has passed `n` slots and counted their live entries in bytes, staying at or before
      the position it looks for. */
  ghost predicate Passed(s: seq<DirEntry>, n: nat, cur: nat, pos: nat) {
    n <= |s| && cur == ENTRY_SIZE * |LiveEntries(s[..n])| && cur <= pos && pos % ENTRY_SIZE == 0
  }

  lemma LiveStep(s: seq<DirEntry>, n: nat)
    requires n < |s|
    ensures LiveEntries(s[..n + 1]) == LiveEntries(s[..n]) + if s[n].Live() then [s[n]] else []
  {
    assert s[..n + 1][..n] == s[..n];
  }

  lemma PassSlot(s: seq<DirEntry>, n: nat, cur: nat, pos: nat)
    requires Passed(s, n, cur, pos) && n < |s|
    ensures !s[n].Live() ==> Passed(s, n + 1, cur, pos)
    ensures s[n].Live() && cur < pos ==> Passed(s, n + 1, cur + ENTRY_SIZE, pos)
    ensures s[n].Live() && cur == pos ==> pos / ENTRY_SIZE < |LiveEntries(s)| && LiveEntries(s)[pos / ENTRY_SIZE] == s[n]
  {
    LiveStep(s, n);
    hide LiveEntries;
    if s[n].Live() && cur == pos {
      LiveUpdate(s, n, s[n]);
    }
  }

  lemma {:induction false} DeadTail(s: seq<DirEntry>, n: nat)
    requires n <= |s| && forall i :: n <= i < |s| ==> !s[i].Live()
    ensures LiveEntries(s[..n]) == LiveEntries(s)
  {
    if n == |s| {
      assert s[..n] == s;
    } else {
      DeadTail(s[..|s| - 1], n);
      assert s[..|s| - 1][..n] == s[..n];
    }
  }

  lemma PassDead(s: seq<DirEntry>, n: nat, n': nat, cur: nat, pos: nat)
    requires Passed(s, n, cur, pos) && n <= n' <= |s| && forall i :: n <= i < n' ==> !s[i].Live()
    ensures Passed(s, n', cur, pos)
  {
    DeadTail(s[..n'], n);
    assert s[..n'][..n] == s[..n];
  }

  /** Past the last slot that can be live, nothing is left to read. */
  lemma PassedAll(s: seq<DirEntry>, n: nat, cur: nat, pos: nat)
    requires Passed(s, n, cur, pos) && forall i :: n <= i < |s| ==> !s[i].Live()
    ensures pos / ENTRY_SIZE >= |LiveEntries(s)|
  {
    DeadTail(s, n);
  }

  lemma SectorSlotsOf(a: seq<Sector>, m: BlockMap, j: nat)
    requires j < ALL_BLOCKS && Readable(a, m)
    ensures PER_SEC * j + PER_SEC <= SLOTS
    ensures Blocks(a, m)[j] == 0 ==> forall k :: PER_SEC * j <= k < PER_SEC * j + PER_SEC ==> !Slots(a, m)[k].Live()
  {
    hide Blocks, Slots, EntryIn;
    if Blocks(a, m)[j] == 0 {
      forall k | PER_SEC * j <= k < PER_SEC * j + PER_SEC ensures !Slots(a, m)[k].Live() {
        SlotIn(a, m, j, k - PER_SEC * j);
      }
    }
  }

  lemma NoTableNoSlots(a: seq<Sector>, m: BlockMap)
    requires Readable(a, m) && m[12] == 0
    ensures forall k :: PER_SEC * DIRECT <= k < SLOTS ==> !Slots(a, m)[k].Live()
  {
    hide Blocks, Slots, EntryIn;
    DirectBlocks(a, m);
    forall k | PER_SEC * DIRECT <= k < SLOTS ensures !Slots(a, m)[k].Live() {
      SlotIn(a, m, k / PER_SEC, k % PER_SEC);
    }
  }

  /** The live entry at the directory position, which moves on by one entry; None at the end. */
  method DirRead(part: Partition, dir: Dir) returns (r: Option<DirEntry>)
    requires part.Valid() && Readable(part.disk.sectors, dir.inode.iSectors) && dir.dirPos % ENTRY_SIZE == 0
    requires dir.inode.iSize == ENTRY_SIZE * |LiveEntries(Slots(part.disk.sectors, dir.inode.iSectors))|
    modifies dir
    ensures var live, k := LiveEntries(Slots(part.disk.sectors, dir.inode.iSectors)), old(dir.dirPos) / ENTRY_SIZE;
            && r == (if k < |live| then Some(live[k]) else None)
            && dir.dirPos == old(dir.dirPos) + if k < |live| then ENTRY_SIZE else 0
  {
    hide Blocks, Slots, EntryIn, LiveEntries, Passed, DecodeWords;
    var dirInode := dir.inode;
    ghost var a, m := part.disk.sectors, dirInode.iSectors;
    ghost var s := Slots(a, m);
    BlocksAre(a, m);
    var blockCnt := 12;
    var allBlocks := dirInode.iSectors[..12] + NoBlocks(128);
    if dirInode.iSectors[12] != 0 {
      var table := part.disk.ReadSector(dirInode.iSectors[12]);
      allBlocks := dirInode.iSectors[..12] + DecodeWords(table);
      blockCnt := 140;
    } else {
      NoTableNoSlots(a, m);
    }
    var blockIdx, curDirEntryPos: nat := 0, 0;
    PassStart(s, dir.dirPos);
    while blockIdx < blockCnt
      invariant blockIdx <= blockCnt && dir.dirPos == old(dir.dirPos)
      invariant Passed(s, PER_SEC * blockIdx, curDirEntryPos, dir.dirPos)
    {
      if dir.dirPos >= dirInode.iSize {
        return None;
      }
      SectorSlotsOf(a, m, blockIdx);
      if allBlocks[blockIdx] == 0 {
        PassDead(s, PER_SEC * blockIdx, PER_SEC * blockIdx + PER_SEC, curDirEntryPos, dir.dirPos);
        blockIdx := blockIdx + 1;
        continue;
      }
      var dirE := part.disk.ReadSector(allBlocks[blockIdx]);
      var dirEntryIdx := 0;
      while dirEntryIdx < PER_SEC
        invariant dirEntryIdx <= PER_SEC && dir.dirPos == old(dir.dirPos)
        invariant Passed(s, PER_SEC * blockIdx + dirEntryIdx, curDirEntryPos, dir.dirPos)
      {
        var e := EntryIn(dirE, dirEntryIdx);
        SlotIn(a, m, blockIdx, dirEntryIdx);
        PassSlot(s, PER_SEC * blockIdx + dirEntryIdx, curDirEntryPos, dir.dirPos);
        if e.ftype != FT_UNKNOWN {
          if curDirEntryPos < dir.dirPos {
            curDirEntryPos := curDirEntryPos + ENTRY_SIZE;
            dirEntryIdx := dirEntryIdx + 1;
            continue;
          }
          assert curDirEntryPos == dir.dirPos by { NotPast(s, PER_SEC * blockIdx + dirEntryIdx, curDirEntryPos, dir.dirPos); }
          dir.dirPos := dir.dirPos + ENTRY_SIZE;
          return Some(e);
        }
        dirEntryIdx := dirEntryIdx + 1;
      }
      blockIdx := blockIdx + 1;
    }
    PassedAll(s, PER_SEC * blockIdx, curDirEntryPos, dir.dirPos);
    return None;
  }

  lemma PassStart(s: seq<DirEntry>, pos: nat)
    requires pos % ENTRY_SIZE == 0
    ensures Passed(s, 0, 0, pos)
  {
  }

  lemma NotPast(s: seq<DirEntry>, n: nat, cur: nat, pos: nat)
    requires Passed(s, n, cur, pos)
    ensures cur <= pos
  {
  }

  /** The loop of ls: reading from position 0 yields every live entry once, in slot order. */
  method ReadAll(part: Partition, dir: Dir) returns (entries: seq<DirEntry>)
    requires part.Valid() && Readable(part.disk.sectors, dir.inode.iSectors) && dir.dirPos == 0
    requires dir.inode.iSize == ENTRY_SIZE * |LiveEntries(Slots(part.disk.sectors, dir.inode.iSectors))|
    modifies dir
    ensures entries == LiveEntries(Slots(part.disk.sectors, dir.inode.iSectors))
    ensures dir.dirPos == dir.inode.iSize
  {
    hide Slots, LiveEntries, Readable;
    ghost var live := LiveEntries(Slots(part.disk.sectors, dir.inode.iSectors));
    entries := [];
    var e := DirRead(part, dir);
    while e.Some?
      invariant |entries| <= |live| && entries == live[..|entries|]
      invariant e == (if |entries| < |live| then Some(live[|entries|]) else None)
      invariant dir.dirPos == ENTRY_SIZE * (|entries| + if e.Some? then 1 else 0)
      decreases |live| - |entries|
    {
      entries := entries + [e.value];
      e := DirRead(part, dir);
    }
  }

  // ----- dir_is_empty and dir_remove

  /** The size test is right: only the two dot entries are left. */
  lemma {:induction false} EmptyMeansDotsOnly(a: seq<Sector>, d: InodeData, lo: nat, hi: nat)
    requires DirOk(a, d, lo, hi)
    ensures d.size == 2 * ENTRY_SIZE <==> DirMap(Slots(a, d.sectors)).Keys == {".", ".."}
  {
    hide Slots, DirMap, LiveEntries;
    var s := Slots(a, d.sectors);
    LiveInMap(s, 0);
    LiveInMap(s, 1);
    DotsFirst(s);
    if i :| 2 <= i < |s| && s[i].Live() {
      LiveUpdate(s, i, DEAD);
      DotsFirst(s[i := DEAD]);
      LiveInMap(s, i);
      assert s[i].name != "." && s[i].name != "..";
    } else {
      DeadTail(s, 2);
      forall n | n in DirMap(s) ensures n == "." || n == ".." { MapDomain(s, n); }
    }
  }

  /** An empty directory holds its two dot entries and nothing else. */
  method DirIsEmpty(dir: Dir, ghost part: Partition) returns (r: bool)
    requires part.Valid()
    requires DirOk(part.disk.sectors, dir.inode.Data(), part.dataStart, part.dataStart + part.blockCnt)
    ensures r <==> DirMap(Slots(part.disk.sectors, dir.inode.iSectors)).Keys == {".", ".."}
  {
    hide Slots, DirMap, DirOk;
    EmptyMeansDotsOnly(part.disk.sectors, dir.inode.Data(), part.dataStart, part.dataStart + part.blockCnt);
    r := dir.inode.iSize == ENTRY_SIZE * 2;
  }

  lemma DotsFirst(s: seq<DirEntry>)
    requires |s| >= 2 && s[0].Live() && s[1].Live()
    ensures LiveEntries(s[..2]) == s[..2] && |LiveEntries(s)| >= 2
  {
    LivePair(s[0], s[1]);
    hide LiveEntries;
    assert s[..2] == [s[0], s[1]];
    assert s == s[..2] + s[2..];
    LiveAppend(s[..2], s[2..]);
  }

  lemma LivePair(x: DirEntry, y: DirEntry)
    requires x.Live() && y.Live()
    ensures LiveEntries([x, y]) == [x, y]
  {
    assert [x][..0] == [];
    assert LiveEntries([x]) == [x];
    assert [x, y][..1] == [x];
  }

  /** The assertions of dir_remove: an empty directory keeps no sector but its first. */
  lemma EmptyDirHasOneSector(a: seq<Sector>, d: InodeData, lo: nat, hi: nat)
    requires DirOk(a, d, lo, hi) && d.size == 2 * ENTRY_SIZE
    ensures forall j :: 1 <= j < 13 ==> d.sectors[j] == 0
  {
    hide Slots, DirMap, LiveEntries;
    var s := Slots(a, d.sectors);
    forall j | 1 <= j < 12 ensures d.sectors[j] == 0 {
      if d.sectors[j] != 0 {
        var i :| PER_SEC * j <= i < PER_SEC * j + PER_SEC && 0 <= i < |s| && s[i].Live();
        LiveUpdate(s, i, DEAD);
        DotsFirst(s[i := DEAD]);
      }
    }
  }
}

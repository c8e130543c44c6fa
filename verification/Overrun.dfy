/** What file_write overruns when its inode's record straddles two sectors: inode_sync reads both into
    a buffer of one (fs/file.c, fs/inode.c), which is a block of the heap (kernel/memory.c). */
module Overruns {
  import opened Disks
  import opened Inodes
  import opened Arenas

  /** The size class of a buffer of one sector. */
  const SECTOR_DESC := 5

  /** The first bytes behind the buffer become the end of the record. */
  lemma BehindBytes(sectors: seq<Sector>, t0: nat, d: InodeData, j: nat)
    requires t0 + TABLE_SECTS <= |sectors| && Straddles(d.no % 256)
    requires INODE_SIZE * (d.no % 256) % SECTOR_SIZE + INODE_SIZE > SECTOR_SIZE + j
    ensures |SyncBuffer(sectors, t0, d)| == 2 * SECTOR_SIZE
    ensures SyncBuffer(sectors, t0, d)[SECTOR_SIZE + j] == EncodeInode(d)[SECTOR_SIZE - INODE_SIZE * (d.no % 256) % SECTOR_SIZE + j]
  {
    hide Splice, Bytes, EncodeInode, Straddles;
  }

  lemma SameWord(b: seq<byte>, i: nat, c: seq<byte>, k: nat)
    requires 4 * i + 4 <= |b| && 4 * k + 4 <= |c| && b[4 * i..4 * i + 4] == c[4 * k..4 * k + 4]
    ensures Word(b, i) == Word(c, k)
  {
    var s, t := b[4 * i..4 * i + 4], c[4 * k..4 * k + 4];
    assert s[0] == t[0] && s[1] == t[1] && s[2] == t[2] && s[3] == t[3];
  }

  lemma FirstToStraddle()
    ensures Straddles(6) && forall n :: 0 <= n < 6 ==> !Straddles(n)
  {
  }

  /** Inode 6 is the first whose record straddles two sectors. The two words behind the buffer, where
      a free block has its list links, become two of its block numbers: zero for a small file. */
  lemma BehindAtSix(sectors: seq<Sector>, t0: nat, d: InodeData)
    requires t0 + TABLE_SECTS <= |sectors| && d.no == 6
    ensures Straddles(6) && (forall n :: 0 <= n < 6 ==> !Straddles(n)) && |SyncBuffer(sectors, t0, d)| == 2 * SECTOR_SIZE
    ensures DecodeWords(SyncBuffer(sectors, t0, d)[SECTOR_SIZE..SECTOR_SIZE + 8]) == [d.sectors[10], d.sectors[11]]
  {
    FirstToStraddle();
    hide SyncBuffer, EncodeInode, Word, Straddles;
    var buf, record := SyncBuffer(sectors, t0, d), EncodeInode(d);
    var behind := buf[SECTOR_SIZE..SECTOR_SIZE + 8];
    forall j | 0 <= j < 8 ensures behind[j] == record[56 + j] { BehindBytes(sectors, t0, d, j); }
    assert behind[0..4] == record[56..60] && behind[4..8] == record[60..64];
    SameWord(behind, 0, record, 14);
    SameWord(behind, 1, record, 15);
    RecordLayout(d);
    assert Word(record, 4 + 10) == d.sectors[10] && Word(record, 4 + 11) == d.sectors[11];
    assert DecodeWords(behind)[0] == d.sectors[10] && DecodeWords(behind)[1] == d.sectors[11];
  }

  /** Whose memory that is: the next block of the arena, which is on the free list, links and all, or
      belongs to someone else; or, behind the last block, the end of the page and twelve bytes more. */
  lemma WhoIsBehind(h: Heap, mapped: set<nat>, b: nat)
    requires HeapOk(h, mapped) && b in h.live && ArenaOf(b) in h.arenas
    requires h.arenas[ArenaOf(b)].Small? && h.arenas[ArenaOf(b)].desc == SECTOR_DESC
    ensures |h.lists| == DESC_CNT
    ensures if b + 2 * SECTOR_SIZE <= PG_SIZE * (ArenaOf(b) + 1)
            then IsBlock(b + SECTOR_SIZE, ArenaOf(b), SECTOR_DESC) &&
                 (b + SECTOR_SIZE in h.lists[SECTOR_DESC] <==> b + SECTOR_SIZE !in h.live)
            else b + 2 * SECTOR_SIZE == PG_SIZE * (ArenaOf(b) + 1) + HEADER
  {
    hide HeapOk, PagesCovered;
    HeapLive(h, mapped, b);
    var p := ArenaOf(b);
    NextBlock(b, p);
    if b + 2 * SECTOR_SIZE <= PG_SIZE * (p + 1) {
      var i: nat :| i < PerArena(SECTOR_DESC) && b + SECTOR_SIZE == BlockAddr(p, SECTOR_DESC, i);
    }
  }

  lemma NextBlock(b: nat, p: nat)
    requires IsBlock(b, p, SECTOR_DESC)
    ensures if b + 2 * SECTOR_SIZE <= PG_SIZE * (p + 1) then IsBlock(b + SECTOR_SIZE, p, SECTOR_DESC)
            else b + 2 * SECTOR_SIZE == PG_SIZE * (p + 1) + HEADER
  {
    var i: nat :| i < PerArena(SECTOR_DESC) && b == BlockAddr(p, SECTOR_DESC, i);
    if i + 1 < PerArena(SECTOR_DESC) { assert b + SECTOR_SIZE == BlockAddr(p, SECTOR_DESC, i + 1); }
  }
}

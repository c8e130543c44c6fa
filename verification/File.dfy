/** Appending to and reading from a file through its block map (fs/file.c). */
module Files {
  import opened Bitmaps
  import opened Disks
  import opened Inodes
  import opened Ownership
  import opened Util

  const BLOCK_SIZE := 512
  const MAX_FILE_SIZE := 71680  // BLOCK_SIZE * 140

  /** A failing ASSERT halts the kernel; -1 is a refusal. Overrun: the last step read two sectors into
      a buffer of one, and `behind` lies where the heap goes on. */
  datatype WriteResult = Panic | Refused | Written(n: nat) | Overrun(behind: seq<byte>)
  datatype ReadResult = ReadPanic | AtEnd | Read(bytes: seq<byte>)

  class File {
    var fdPos: u32
    const fdInode: Inode

    constructor (inode: Inode)
      ensures fdInode == inode && fdPos == 0
    {
      fdInode, fdPos := inode, 0;
    }
  }

  // ----- what a file is

  /** Exactly the first `n` blocks are allocated, and the table block iff one is needed. */
  ghost predicate Dense(b: seq<u32>, t: u32, n: nat) {
    && |b| == ALL_BLOCKS && n <= ALL_BLOCKS
    && (forall k :: 0 <= k < ALL_BLOCKS ==> (b[k] != 0 <==> k < n))
    && (t != 0 <==> n > DIRECT)
  }

  ghost function BlockCount(d: InodeData): nat {
    if d.sectors[0] == 0 then 0 else d.size / BLOCK_SIZE + 1
  }

  /** Blocks 0 .. size / 512 are allocated, or none at all for a file never written. */
  ghost predicate FileOk(sectors: seq<Sector>, d: InodeData, lo: nat, hi: nat) {
    && d.size < MAX_FILE_SIZE && (d.size > 0 ==> d.sectors[0] != 0)
    && Dense(Blocks(sectors, d.sectors), d.sectors[12], BlockCount(d))
    && Apart(Blocks(sectors, d.sectors), d.sectors[12], lo, hi)
  }

  ghost function ByteAt(sectors: seq<Sector>, b: seq<u32>, i: nat): byte {
    if i / BLOCK_SIZE < |b| && b[i / BLOCK_SIZE] < |sectors| then sectors[b[i / BLOCK_SIZE]][i % BLOCK_SIZE] else 0
  }

  /** The byte sequence the file stands for. */
  ghost function Contents(sectors: seq<Sector>, d: InodeData): (c: seq<byte>)
    ensures |c| == d.size
  {
    seq<byte>(d.size, i requires 0 <= i < d.size => ByteAt(sectors, Blocks(sectors, d.sectors), i))
  }

  /** Blocks taken from the bitmap by appending `count` bytes. */
  ghost function BlocksNeeded(d: InodeData, count: nat): nat {
    var used := d.size / BLOCK_SIZE + 1;
    var will := (d.size + count) / BLOCK_SIZE + 1;
    (if d.sectors[0] == 0 then 1 else 0) +
    (if d.size + count >= MAX_FILE_SIZE then 0 else will - used + if used <= DIRECT < will then 1 else 0)
  }

  // ----- collecting the blocks of a write

  /** `cur` holds the first `used` blocks of `b`, newly taken blocks up to `n`, and zeros. */
  ghost predicate Filled(b: seq<u32>, used: nat, cur: seq<u32>, n: nat) {
    && |b| == |cur| == ALL_BLOCKS && used <= n <= ALL_BLOCKS
    && cur[..used] == b[..used]
    && forall k :: n <= k < ALL_BLOCKS ==> cur[k] == 0
  }

  lemma FilledStep(b: seq<u32>, used: nat, cur: seq<u32>, n: nat, x: u32, all: seq<u32>, from: int)
    requires Filled(b, used, cur, n) && n < ALL_BLOCKS && Covers(all, cur, from, ALL_BLOCKS)
    ensures |cur| == |all| == ALL_BLOCKS && cur[n] == 0
    ensures Filled(b, used, cur[n := x], n + 1) && Covers(all[n := x], cur[n := x], from, ALL_BLOCKS)
    ensures used <= n && cur[n := x][used..n + 1] == cur[used..n] + [x]
  {
  }

  /** all_blocks agrees with the block map from index `from` up to `to`. */
  ghost predicate Covers(all: seq<u32>, b: seq<u32>, from: int, to: int) {
    |all| == |b| && forall k :: 0 <= k < |b| && from <= k < to ==> all[k] == b[k]
  }

  lemma FilledStart(b: seq<u32>, t: u32, used: nat)
    requires Dense(b, t, used) && 1 <= used
    ensures |b| == ALL_BLOCKS && Filled(b, used, b, used) && b[used..used] == []
    ensures Covers(NoBlocks(ALL_BLOCKS)[used - 1 := b[used - 1]], b, used - 1, ALL_BLOCKS)
  {
  }

  lemma CoversTable(all: seq<u32>, cur: seq<u32>, from: int, to: nat)
    requires |cur| == ALL_BLOCKS && Covers(all, cur, from, ALL_BLOCKS) && from <= DIRECT && to <= ALL_BLOCKS
    ensures |all| == ALL_BLOCKS && all[DIRECT..] == cur[DIRECT..] && Covers(all, cur, from, to)
  {
  }

  ghost predicate AllSet(s: set<int>, bits: seq<bool>, lo: nat) {
    forall x :: x in s ==> lo <= x < lo + |bits| && bits[x - lo]
  }

  /** A well-formed map `b`, `t` of `used` blocks about to become `cur`, `t'` of `n` blocks by
      taking `got`, all of which were free. */
  ghost predicate Extending(b: seq<u32>, t: u32, used: nat, cur: seq<u32>, n: nat, t': u32,
                            before: seq<bool>, lo: nat, got: seq<u32>) {
    && lo > 0 && Dense(b, t, used) && Apart(b, t, lo, lo + |before|) && AllSet(Named(b, t), before, lo)
    && Filled(b, used, cur, n)
    && got == (if t == t' then [] else [t']) + cur[used..n]
    && (t == t' || t == 0) && (t' != 0 <==> n > DIRECT)
    && Distinct(got) && forall g :: g in got ==> lo <= g < lo + |before| && !before[g - lo]
  }

  lemma ExtendEntry(b: seq<u32>, t: u32, used: nat, cur: seq<u32>, n: nat, t': u32,
                    before: seq<bool>, lo: nat, got: seq<u32>, k: nat)
    requires Extending(b, t, used, cur, n, t', before, lo, got) && k < n
    ensures lo <= cur[k] < lo + |before| && (before[cur[k] - lo] <==> k < used)
    ensures k < used ==> cur[k] == b[k]
    ensures k >= used ==> cur[k] == got[|got| - n + k]
  {
    hide Distinct, Apart;
    if k < used {
      assert cur[..used][k] == b[..used][k];
      assert b[k] in Named(b, t);
    } else {
      assert cur[used..n][k - used] == cur[k];
      assert got[|got| - n + k] == cur[k] && cur[k] in got;
    }
  }

  lemma ExtendTable(b: seq<u32>, t: u32, used: nat, cur: seq<u32>, n: nat, t': u32,
                    before: seq<bool>, lo: nat, got: seq<u32>, k: nat)
    requires Extending(b, t, used, cur, n, t', before, lo, got) && k < n && t' != 0
    ensures lo <= t' < lo + |before| && cur[k] != t'
  {
    ExtendEntry(b, t, used, cur, n, t', before, lo, got, k);
    if t == t' { assert t in Named(b, t); }
    else { assert got[0] == t' && t' in got; }
  }

  lemma ExtendApart(b: seq<u32>, t: u32, used: nat, cur: seq<u32>, n: nat, t': u32,
                    before: seq<bool>, lo: nat, got: seq<u32>)
    requires Extending(b, t, used, cur, n, t', before, lo, got)
    ensures Dense(cur, t', n) && Apart(cur, t', lo, lo + |before|)
  {
    forall k: nat | k < n ensures lo <= cur[k] < lo + |before| && cur[k] != t' {
      ExtendEntry(b, t, used, cur, n, t', before, lo, got, k);
      if t' != 0 { ExtendTable(b, t, used, cur, n, t', before, lo, got, k); }
    }
    forall j: nat, k: nat | j < k < n ensures cur[j] != cur[k] {
      ExtendEntry(b, t, used, cur, n, t', before, lo, got, j);
      ExtendEntry(b, t, used, cur, n, t', before, lo, got, k);
    }
    if t' != 0 { ExtendTable(b, t, used, cur, n, t', before, lo, got, 0); }
  }

  /** Adding blocks that were free to a well-formed block map gives a well-formed one. */
  lemma ExtendMap(b: seq<u32>, t: u32, used: nat, cur: seq<u32>, n: nat, t': u32,
                  before: seq<bool>, bits: seq<bool>, lo: nat, got: seq<u32>)
    requires Grew(before, bits, lo, got) && Extending(b, t, used, cur, n, t', before, lo, got)
    ensures Dense(cur, t', n) && Apart(cur, t', lo, lo + |before|)
    ensures forall x :: x in Named(cur, t') <==> x in Named(b, t) || x in got
  {
    ExtendApart(b, t, used, cur, n, t', before, lo, got);
    NamedExtends(b, t, used, cur, n, t', got);
  }

  lemma NamedExtends(b: seq<u32>, t: u32, used: nat, cur: seq<u32>, n: nat, t': u32, got: seq<u32>)
    requires Dense(b, t, used) && Filled(b, used, cur, n) && (t == t' || t == 0)
    requires got == (if t == t' then [] else [t']) + cur[used..n] && 0 !in got
    ensures forall x :: x in Named(cur, t') <==> x in Named(b, t) || x in got
  {
    forall x: int ensures x in Named(cur, t') <==> x in Named(b, t) || x in got {
      if x in cur && x != 0 {
        var k :| 0 <= k < |cur| && cur[k] == x;
        if k < used { assert b[..used][k] == x; assert b[k] == x; }
        else { assert cur[used..n][k - used] == x; }
      }
      if x in b && x != 0 {
        var k :| 0 <= k < |b| && b[k] == x;
        assert cur[..used][k] == x;
        assert cur[k] == x;
      }
    }
  }

  /** Before collecting: `used` blocks, all marked in the bitmap. */
  ghost predicate Ready(a: seq<Sector>, m: BlockMap, used: nat, bits: seq<bool>, lo: nat) {
    && lo > 0 && lo + |bits| <= |a| && Dense(Blocks(a, m), m[12], used)
    && Apart(Blocks(a, m), m[12], lo, lo + |bits|) && AllSet(Owned(a, m), bits, lo)
  }

  ghost predicate OnlyChanged(a: seq<Sector>, a': seq<Sector>, t: nat) {
    |a| == |a'| && forall x :: 0 <= x < |a| && x != t ==> a'[x] == a[x]
  }

  /** After collecting: `will` blocks, the first `used` as before, the others freshly taken; only
      the table block may have been written, and all_blocks is right from the last old block on. */
  ghost predicate Collected(a: seq<Sector>, m: BlockMap, used: nat, before: seq<bool>, lo: nat,
                            a': seq<Sector>, m': BlockMap, will: nat, bits: seq<bool>,
                            allBlocks: seq<u32>, got: seq<u32>) {
    var b, b' := Blocks(a, m), Blocks(a', m');
    && Dense(b', m'[12], will) && Apart(b', m'[12], lo, lo + |bits|) && used <= will && b'[..used] == b[..used]
    && Grew(before, bits, lo, got) && |got| == will - used + (if used <= DIRECT < will then 1 else 0)
    && (forall x :: x in Owned(a', m') <==> x in Owned(a, m) || x in got)
    && OnlyChanged(a, a', m'[12]) && Covers(allBlocks, b', used - 1, will)
  }

  /** The block map as the inode and, past twelve blocks, the table on disk represent it. */
  lemma MapOnDisk(a: seq<Sector>, cur: seq<u32>, m: BlockMap)
    requires |cur| == ALL_BLOCKS && m == cur[..DIRECT] + [m[12]] && m[12] < |a|
    requires if m[12] == 0 then cur[DIRECT..] == NoBlocks(128) else a[m[12]] == EncodeWords(cur[DIRECT..])
    ensures Blocks(a, m) == cur
  {
    if m[12] != 0 { WordsRoundTrip(cur[DIRECT..]); }
    assert m[..DIRECT] == cur[..DIRECT];
    assert cur == cur[..DIRECT] + cur[DIRECT..];
  }

  lemma CollectedBy(a: seq<Sector>, m: BlockMap, used: nat, before: seq<bool>, lo: nat,
                    a': seq<Sector>, m': BlockMap, will: nat, bits: seq<bool>, allBlocks: seq<u32>, got: seq<u32>, cur: seq<u32>)
    requires Ready(a, m, used, before, lo) && Filled(Blocks(a, m), used, cur, will) && Grew(before, bits, lo, got)
    requires got == (if m[12] == m'[12] then [] else [m'[12]]) + cur[used..will]
    requires (m[12] == m'[12] || m[12] == 0) && (m'[12] != 0 <==> will > DIRECT)
    requires OnlyChanged(a, a', m'[12]) && Blocks(a', m') == cur && Covers(allBlocks, cur, used - 1, will)
    ensures Collected(a, m, used, before, lo, a', m', will, bits, allBlocks, got)
  {
    hide Blocks, Named;
    ExtendMap(Blocks(a, m), m[12], used, cur, will, m'[12], before, bits, lo, got);
  }

  /** Situation 1: all blocks are direct. */
  method AddDirect(part: Partition, inode: Inode, used: nat, will: nat) returns (allBlocks: seq<u32>, ghost got: seq<u32>)
    requires part.Valid() && 1 <= used < will <= DIRECT
    requires Ready(part.disk.sectors, inode.iSectors, used, part.BlockBits(), part.dataStart)
    requires FreeCount(part.BlockBits()) >= will - used
    modifies part.blockBitmap.bits, inode`iSectors
    ensures part.Valid()
    ensures Collected(part.disk.sectors, old(inode.iSectors), used, old(part.BlockBits()), part.dataStart,
                      part.disk.sectors, inode.iSectors, will, part.BlockBits(), allBlocks, got)
  {
    hide Named, Apart, Unpack, FreeCount, IsFirstFit, AllSet, Grew, Masked;
    ghost var a, before, lo := part.disk.sectors, part.BlockBits(), part.dataStart;
    ghost var b := Blocks(a, inode.iSectors);
    ghost var cur := b;
    GrewStart(before, lo);
    allBlocks := NoBlocks(ALL_BLOCKS);
    var blockIdx := used - 1;
    assert inode.iSectors[blockIdx] != 0;
    allBlocks := allBlocks[blockIdx := inode.iSectors[blockIdx]];
    blockIdx := used;
    assert cur[used..used] == [];
    while blockIdx < will
      invariant part.Valid() && used <= blockIdx <= will && |allBlocks| == ALL_BLOCKS
      invariant Filled(b, used, cur, blockIdx)
      invariant Grew(before, part.BlockBits(), lo, cur[used..blockIdx])
      invariant inode.iSectors == cur[..DIRECT] + [0]
      invariant Covers(allBlocks, cur, used - 1, ALL_BLOCKS)
    {
      GrewLeaves(before, part.BlockBits(), lo, cur[used..blockIdx], will - used);
      var blockLba := BlockBitmapAlloc(part, before, cur[used..blockIdx]);
      FilledStep(b, used, cur, blockIdx, blockLba, allBlocks, used - 1);
      assert inode.iSectors[blockIdx] == 0;
      cur := cur[blockIdx := blockLba];
      allBlocks := allBlocks[blockIdx := blockLba];
      inode.iSectors := inode.iSectors[blockIdx := blockLba];
      blockIdx := blockIdx + 1;
    }
    got := cur[used..will];
    MapOnDisk(a, cur, inode.iSectors);
    CollectedBy(a, old(inode.iSectors), used, before, lo, a, inode.iSectors, will, part.BlockBits(), allBlocks, got, cur);
  }

  /** Situation 2: the write crosses from direct blocks into the table, which it creates. */
  method AddCrossing(part: Partition, inode: Inode, used: nat, will: nat) returns (allBlocks: seq<u32>, ghost got: seq<u32>)
    requires part.Valid() && 1 <= used <= DIRECT < will <= ALL_BLOCKS
    requires Ready(part.disk.sectors, inode.iSectors, used, part.BlockBits(), part.dataStart)
    requires FreeCount(part.BlockBits()) >= will - used + 1
    modifies part.disk, part.blockBitmap.bits, inode`iSectors
    ensures part.Valid()
    ensures Collected(old(part.disk.sectors), old(inode.iSectors), used, old(part.BlockBits()), part.dataStart,
                      part.disk.sectors, inode.iSectors, will, part.BlockBits(), allBlocks, got)
  {
    hide Named, Apart, Unpack, FreeCount, IsFirstFit, AllSet, Grew, Filled, Covers, DecodeWords, Masked;
    ghost var a, before, lo := part.disk.sectors, part.BlockBits(), part.dataStart;
    ghost var b := Blocks(a, inode.iSectors);
    ghost var cur := b;
    GrewStart(before, lo);
    allBlocks := NoBlocks(ALL_BLOCKS);
    FilledStart(b, inode.iSectors[12], used);
    assert b[used - 1] == b[..DIRECT][used - 1];
    var blockIdx := used - 1;
    allBlocks := allBlocks[blockIdx := inode.iSectors[blockIdx]];
    GrewLeaves(before, part.BlockBits(), lo, [], will - used + 1);
    var table := BlockBitmapAlloc(part, before, []);
    assert inode.iSectors[12] == 0;
    inode.iSectors := inode.iSectors[12 := table];
    blockIdx := used;
    assert [] + [table] + cur[used..used] == [table];
    assert [] + [table] == [table];
    while blockIdx < will
      invariant part.Valid() && part.disk.sectors == a && used <= blockIdx <= will && |allBlocks| == |cur| == ALL_BLOCKS
      invariant Filled(b, used, cur, blockIdx)
      invariant Grew(before, part.BlockBits(), lo, [table] + cur[used..blockIdx])
      invariant inode.iSectors == cur[..DIRECT] + [table]
      invariant Covers(allBlocks, cur, used - 1, ALL_BLOCKS)
    {
      GrewLeaves(before, part.BlockBits(), lo, [table] + cur[used..blockIdx], will - used + 1);
      var blockLba := BlockBitmapAlloc(part, before, [table] + cur[used..blockIdx]);
      FilledStep(b, used, cur, blockIdx, blockLba, allBlocks, used - 1);
      assert [table] + cur[used..blockIdx] + [blockLba] == [table] + cur[blockIdx := blockLba][used..blockIdx + 1];
      cur := cur[blockIdx := blockLba];
      if blockIdx < 12 {
        assert inode.iSectors[blockIdx] == 0;
        allBlocks := allBlocks[blockIdx := blockLba];
        inode.iSectors := inode.iSectors[blockIdx := blockLba];
      } else {
        allBlocks := allBlocks[blockIdx := blockLba];
      }
      blockIdx := blockIdx + 1;
    }
    part.disk.WriteSector(table, EncodeWords(allBlocks[12..]));
    got := [table] + cur[used..will];
    CoversTable(allBlocks, cur, used - 1, will);
    MapOnDisk(part.disk.sectors, cur, inode.iSectors);
    CollectedBy(a, old(inode.iSectors), used, before, lo, part.disk.sectors, inode.iSectors, will,
                part.BlockBits(), allBlocks, got, cur);
  }

  /** Situation 3: the table exists and all new blocks are entered there. */
  method AddIndirect(part: Partition, inode: Inode, used: nat, will: nat) returns (allBlocks: seq<u32>, ghost got: seq<u32>)
    requires part.Valid() && DIRECT < used < will <= ALL_BLOCKS
    requires Ready(part.disk.sectors, inode.iSectors, used, part.BlockBits(), part.dataStart)
    requires FreeCount(part.BlockBits()) >= will - used
    modifies part.disk, part.blockBitmap.bits
    ensures part.Valid()
    ensures Collected(old(part.disk.sectors), inode.iSectors, used, old(part.BlockBits()), part.dataStart,
                      part.disk.sectors, inode.iSectors, will, part.BlockBits(), allBlocks, got)
  {
    hide Named, Apart, Unpack, FreeCount, IsFirstFit, AllSet, Grew, DecodeWords, Masked;
    ghost var a, before, lo := part.disk.sectors, part.BlockBits(), part.dataStart;
    ghost var b := Blocks(a, inode.iSectors);
    ghost var cur := b;
    GrewStart(before, lo);
    assert inode.iSectors[12] != 0;
    var indirectBlockTable := inode.iSectors[12];
    TableInRange(a, inode.iSectors, used, before, lo);
    allBlocks := LoadTable(part, indirectBlockTable);
    var blockIdx := used;
    assert cur[used..used] == [];
    while blockIdx < will
      invariant part.Valid() && part.disk.sectors == a && used <= blockIdx <= will && |allBlocks| == ALL_BLOCKS
      invariant Filled(b, used, cur, blockIdx)
      invariant Grew(before, part.BlockBits(), lo, cur[used..blockIdx])
      invariant Covers(allBlocks, cur, DIRECT, ALL_BLOCKS)
    {
      GrewLeaves(before, part.BlockBits(), lo, cur[used..blockIdx], will - used);
      var blockLba := BlockBitmapAlloc(part, before, cur[used..blockIdx]);
      FilledStep(b, used, cur, blockIdx, blockLba, allBlocks, DIRECT);
      cur := cur[blockIdx := blockLba];
      allBlocks := allBlocks[blockIdx := blockLba];
      blockIdx := blockIdx + 1;
    }
    part.disk.WriteSector(indirectBlockTable, EncodeWords(allBlocks[12..]));
    got := cur[used..will];
    assert allBlocks[12..] == cur[12..];
    assert inode.iSectors == cur[..DIRECT] + [indirectBlockTable] by {
      assert cur[..used][..DIRECT] == cur[..DIRECT] && b[..used][..DIRECT] == b[..DIRECT];
    }
    MapOnDisk(part.disk.sectors, cur, inode.iSectors);
    CollectedBy(a, inode.iSectors, used, before, lo, part.disk.sectors, inode.iSectors, will,
                part.BlockBits(), allBlocks, got, cur);
  }

  /** all_blocks with the table entries read in behind twelve zeros. */
  method LoadTable(part: Partition, table: u32) returns (allBlocks: seq<u32>)
    requires part.Valid() && table < |part.disk.sectors|
    ensures allBlocks == NoBlocks(DIRECT) + DecodeWords(part.disk.sectors[table])
  {
    var sec := part.disk.ReadSector(table);
    allBlocks := NoBlocks(DIRECT) + DecodeWords(sec);
  }

  /** The whole case distinction of file_write. */
  method CollectBlocks(part: Partition, inode: Inode, used: nat, will: nat) returns (allBlocks: seq<u32>, ghost got: seq<u32>)
    requires part.Valid() && 1 <= used <= will <= ALL_BLOCKS
    requires Ready(part.disk.sectors, inode.iSectors, used, part.BlockBits(), part.dataStart)
    requires FreeCount(part.BlockBits()) >= will - used + if used <= DIRECT < will then 1 else 0
    modifies part.disk, part.blockBitmap.bits, inode`iSectors
    ensures part.Valid()
    ensures Collected(old(part.disk.sectors), old(inode.iSectors), used, old(part.BlockBits()), part.dataStart,
                      part.disk.sectors, inode.iSectors, will, part.BlockBits(), allBlocks, got)
  {
    hide Collected, FreeCount, Unpack, Apart, AllSet, Masked;
    var addBlocks := will - used;
    if addBlocks == 0 {
      if will <= 12 {
        allBlocks := NoBlocks(ALL_BLOCKS);
        allBlocks := allBlocks[used - 1 := inode.iSectors[used - 1]];
      } else {
        assert inode.iSectors[12] != 0;
        TableInRange(part.disk.sectors, inode.iSectors, used, part.BlockBits(), part.dataStart);
        allBlocks := LoadTable(part, inode.iSectors[12]);
      }
      got := [];
      GrewStart(part.BlockBits(), part.dataStart);
      CollectedBy(part.disk.sectors, inode.iSectors, used, part.BlockBits(), part.dataStart, part.disk.sectors,
                  inode.iSectors, will, part.BlockBits(), allBlocks, got, Blocks(part.disk.sectors, inode.iSectors));
    } else if will <= 12 {
      allBlocks, got := AddDirect(part, inode, used, will);
    } else if used <= 12 && will > 12 {
      allBlocks, got := AddCrossing(part, inode, used, will);
    } else {
      allBlocks, got := AddIndirect(part, inode, used, will);
    }
  }

  lemma TableInRange(a: seq<Sector>, m: BlockMap, used: nat, bits: seq<bool>, lo: nat)
    requires Ready(a, m, used, bits, lo)
    ensures m[12] < |a|
  {
  }

  lemma GrewLeaves(before: seq<bool>, bits: seq<bool>, lo: nat, got: seq<u32>, need: nat)
    requires Grew(before, bits, lo, got) && FreeCount(before) >= need > |got|
    ensures FreeCount(bits) > 0
  {
  }

  // ----- the chunk loops

  ghost predicate Holds(sectors: seq<Sector>, b: seq<u32>, data: seq<byte>) {
    forall i :: 0 <= i < |data| ==> ByteAt(sectors, b, i) == data[i]
  }

  /** The first `n` entries are distinct sectors of the disk. */
  ghost predicate Located(b: seq<u32>, n: nat, sectors: seq<Sector>) {
    && n <= |b| && (forall k :: 0 <= k < n ==> b[k] < |sectors|)
    && (forall j, k :: 0 <= j < k < n ==> b[j] != b[k])
  }

  /** One sector write appends one chunk. */
  lemma WriteChunk(sectors: seq<Sector>, b: seq<u32>, n: nat, data: seq<byte>, chunk: seq<byte>, io: Sector, idx: nat, off: nat)
    requires Located(b, n, sectors) && idx < n && Holds(sectors, b, data)
    requires |data| == BLOCK_SIZE * idx + off && off < BLOCK_SIZE && off + |chunk| <= BLOCK_SIZE
    requires forall j :: 0 <= j < off ==> io[j] == sectors[b[idx]][j]
    requires io[off..off + |chunk|] == chunk
    ensures Holds(sectors[b[idx] := io], b, data + chunk)
  {
    var sectors' := sectors[b[idx] := io];
    forall i | 0 <= i < |data + chunk| ensures ByteAt(sectors', b, i) == (data + chunk)[i] {
      var k, j := i / BLOCK_SIZE, i % BLOCK_SIZE;
      assert i == BLOCK_SIZE * k + j && k <= idx;
      if k == idx {
        if i < |data| { assert ByteAt(sectors, b, i) == data[i]; }
        else { assert io[off..off + |chunk|][j - off] == chunk[j - off]; }
      } else {
        assert i < |data| && ByteAt(sectors, b, i) == data[i];
        assert b[k] != b[idx];
      }
    }
  }

  function Wrap(x: int): u32 {
    x % 0x1_0000_0000
  }

  lemma WrapSmall(x: int)
    ensures 0 <= x < 0x1_0000_0000 ==> Wrap(x) == x
    ensures -0x1_0000_0000 < x < 0 ==> Wrap(x) == x + 0x1_0000_0000
  {
  }

  lemma WrapAdd(x: int, y: int)
    ensures Wrap(Wrap(x) + y) == Wrap(x + y)
  {
  }

  function Min(x: nat, y: nat): nat {
    if x < y then x else y
  }

  lemma ChunkFills(size: nat, left: nat)
    ensures var chunk := Min(left, BLOCK_SIZE - size % BLOCK_SIZE);
            chunk == left || (size + chunk) % BLOCK_SIZE == 0
    ensures size == BLOCK_SIZE * (size / BLOCK_SIZE) + size % BLOCK_SIZE
  {
  }

  ghost predicate Untouched(a: seq<Sector>, a': seq<Sector>, blocks: seq<u32>) {
    |a| == |a'| && forall x :: 0 <= x < |a| && x !in blocks ==> a'[x] == a[x]
  }

  lemma UntouchedStep(a: seq<Sector>, a': seq<Sector>, blocks: seq<u32>, k: nat, io: Sector)
    requires Untouched(a, a', blocks) && k < |blocks| && blocks[k] < |a'|
    ensures Untouched(a, a'[blocks[k] := io], blocks)
  {
  }

  lemma Entry(allBlocks: seq<u32>, b: seq<u32>, from: nat, n: nat, k: nat, sectors: seq<Sector>)
    requires Covers(allBlocks, b, from, n) && Located(b, n, sectors) && from <= k < n
    ensures k < |allBlocks| && k < |b| && allBlocks[k] == b[k] == b[..n][k] < |sectors|
  {
  }

  /** One turn of the loop: a zeroed buffer, filled from disk the first time, takes the chunk and
      goes to its sector. */
  method PutChunk(part: Partition, secLba: u32, secOffBytes: nat, chunk: seq<byte>, firstWriteBlock: bool) returns (ghost io: Sector)
    requires secLba < |part.disk.sectors| && secOffBytes + |chunk| <= BLOCK_SIZE
    requires firstWriteBlock || secOffBytes == 0
    modifies part.disk
    ensures part.disk.sectors == old(part.disk.sectors)[secLba := io]
    ensures io[secOffBytes..secOffBytes + |chunk|] == chunk
    ensures forall j :: 0 <= j < secOffBytes ==> io[j] == old(part.disk.sectors)[secLba][j]
  {
    var ioBuf := Zeros(BLOCK_SIZE);
    if firstWriteBlock {
      ioBuf := part.disk.ReadSector(secLba);
    }
    ioBuf := Splice(ioBuf, secOffBytes, chunk);
    part.disk.WriteSector(secLba, ioBuf);
    io := ioBuf;
  }

  /** The write loop. `data` is what the file holds so far. */
  method WriteChunks(part: Partition, file: File, allBlocks: seq<u32>, buf: seq<byte>, ghost b: seq<u32>, ghost n: nat, ghost data: seq<byte>)
    requires Located(b, n, part.disk.sectors) && |data| == file.fdInode.iSize
    requires Holds(part.disk.sectors, b, data)
    requires |data| + |buf| < MAX_FILE_SIZE && (|data| + |buf|) / BLOCK_SIZE < n
    requires Covers(allBlocks, b, |data| / BLOCK_SIZE, n)
    modifies part.disk, file, file.fdInode`iSize
    ensures file.fdInode.iSize == |data| + |buf| && file.fdPos == Wrap(file.fdInode.iSize - 1)
    ensures Holds(part.disk.sectors, b, data + buf) && Untouched(old(part.disk.sectors), part.disk.sectors, b[..n])
    ensures |part.disk.sectors| == |old(part.disk.sectors)|
  {
    hide Holds, ByteAt, Located, Covers, Untouched, Wrap;
    ghost var a := part.disk.sectors;
    var count := |buf|;
    var bytesWritten, sizeLeft := 0, count;
    var firstWriteBlock := true;
    file.fdPos := Wrap(file.fdInode.iSize - 1);
    assert data + buf[..0] == data;
    UntouchedStart(a, b, n, part.disk.sectors);
    while bytesWritten < count
      invariant sizeLeft == count - bytesWritten && bytesWritten <= count
      invariant file.fdInode.iSize == |data| + bytesWritten && file.fdPos == Wrap(file.fdInode.iSize - 1)
      invariant |part.disk.sectors| == |a| && Located(b, n, part.disk.sectors) && Untouched(a, part.disk.sectors, b[..n])
      invariant Holds(part.disk.sectors, b, data + buf[..bytesWritten])
      invariant firstWriteBlock || sizeLeft == 0 || file.fdInode.iSize % BLOCK_SIZE == 0
    {
      ghost var sofar, sectors := data + buf[..bytesWritten], part.disk.sectors;
      var secIdx := file.fdInode.iSize / BLOCK_SIZE;
      Entry(allBlocks, b, |data| / BLOCK_SIZE, n, secIdx, sectors);
      var secLba := allBlocks[secIdx];
      var secOffBytes := file.fdInode.iSize % BLOCK_SIZE;
      var secLeftBytes := BLOCK_SIZE - secOffBytes;
      var chunkSize := Min(sizeLeft, secLeftBytes);
      ChunkFills(file.fdInode.iSize, sizeLeft);
      var chunk := buf[bytesWritten..bytesWritten + chunkSize];
      ghost var ioBuf := PutChunk(part, secLba, secOffBytes, chunk, firstWriteBlock);
      firstWriteBlock := false;
      WriteChunk(sectors, b, n, sofar, chunk, ioBuf, secIdx, secOffBytes);
      UntouchedStep(a, sectors, b[..n], secIdx, ioBuf);
      StillLocated(b, n, sectors, part.disk.sectors);
      ChunkAppended(data, buf, bytesWritten, bytesWritten + chunkSize);
      WrapAdd(file.fdInode.iSize - 1, chunkSize);
      file.fdInode.iSize := file.fdInode.iSize + chunkSize;
      file.fdPos := Wrap(file.fdPos + chunkSize);
      bytesWritten := bytesWritten + chunkSize;
      sizeLeft := sizeLeft - chunkSize;
    }
    assert buf[..count] == buf;
  }

  lemma ChunkAppended(data: seq<byte>, buf: seq<byte>, i: nat, j: nat)
    requires i <= j <= |buf|
    ensures data + buf[..i] + buf[i..j] == data + buf[..j]
  {
  }

  lemma UntouchedStart(a: seq<Sector>, b: seq<u32>, n: nat, sectors: seq<Sector>)
    requires Located(b, n, sectors)
    ensures n <= |b| && Untouched(a, a, b[..n])
  {
  }

  lemma StillLocated(b: seq<u32>, n: nat, sectors: seq<Sector>, sectors': seq<Sector>)
    requires Located(b, n, sectors) && |sectors| == |sectors'|
    ensures Located(b, n, sectors')
  {
  }

  // ----- file_write

  lemma AgreeReady(files: map<nat, BlockMap>, a: seq<Sector>, bits: seq<bool>, lo: nat, no: nat, used: nat)
    requires Agree(files, a, bits, lo) && no in files && Dense(Blocks(a, files[no]), files[no][12], used)
    ensures Ready(a, files[no], used, bits, lo)
  {
    hide Blocks, Named, Apart;
    forall x | x in Owned(a, files[no]) ensures lo <= x < lo + |bits| && bits[x - lo] {
      OwnedInRange(files, a, bits, lo, no, x);
    }
  }

  /** A file never written owns nothing; its first block makes it a file of one block. */
  lemma FirstBlock(a: seq<Sector>, m: BlockMap, before: seq<bool>, bits: seq<bool>, lo: nat, lba: u32)
    requires Ready(a, m, 0, before, lo) && Grew(before, bits, lo, [lba])
    ensures Owned(a, m) == {} && Owned(a, m[0 := lba]) == {lba as int}
    ensures Ready(a, m[0 := lba], 1, bits, lo)
  {
    var b, b' := Blocks(a, m), Blocks(a, m[0 := lba]);
    assert lba in [lba];
    assert b' == b[0 := lba] by {
      assert m[0 := lba][..DIRECT] == m[..DIRECT][0 := lba];
    }
    assert bits[lba - lo] by { assert lo + (lba - lo) in [lba]; }
    forall x ensures x in Named(b', 0) <==> x == lba as int {
      if x in b' && x != 0 { var k :| 0 <= k < |b'| && b'[k] == x; }
      assert b'[0] == lba;
    }
  }

  /** Writing data blocks and the inode table leaves the block map on disk alone. */
  lemma SameBlocks(a: seq<Sector>, a': seq<Sector>, a'': seq<Sector>, m: BlockMap, n: nat, lo: nat, hi: nat, t0: nat)
    requires Dense(Blocks(a, m), m[12], n) && Apart(Blocks(a, m), m[12], lo, hi) && 0 < lo && hi <= |a|
    requires Untouched(a, a', Blocks(a, m)[..n]) && SameOutsideTable(a', a'', t0) && t0 + TABLE_SECTS <= lo
    ensures Blocks(a'', m) == Blocks(a, m)
  {
    hide Word, DecodeWords;
    if m[12] != 0 {
      assert m[12] !in Blocks(a, m)[..n];
      assert a''[m[12]] == a[m[12]];
    }
  }

  lemma LocatedBy(b: seq<u32>, t: u32, n: nat, lo: nat, hi: nat, a: seq<Sector>)
    requires Dense(b, t, n) && Apart(b, t, lo, hi) && hi <= |a|
    ensures Located(b, n, a)
  {
  }

  /** A file's bytes survive changes outside its blocks, and Contents reads exactly what Holds says. */
  lemma ContentsAre(a: seq<Sector>, d: InodeData, data: seq<byte>)
    requires |data| == d.size
    ensures Contents(a, d) == data <==> Holds(a, Blocks(a, d.sectors), data)
  {
    hide ByteAt, Blocks;
    assert Holds(a, Blocks(a, d.sectors), Contents(a, d));
    if Holds(a, Blocks(a, d.sectors), data) {
      forall i | 0 <= i < d.size ensures Contents(a, d)[i] == data[i] {}
    }
  }

  lemma HoldsKept(a: seq<Sector>, a': seq<Sector>, b: seq<u32>, b': seq<u32>, n: nat, data: seq<byte>)
    requires Holds(a, b, data) && n <= |b| && n <= |b'| && b[..n] == b'[..n] && |data| <= BLOCK_SIZE * n && |a| == |a'|
    requires forall k :: 0 <= k < n ==> b[k] < |a| && a'[b[k]] == a[b[k]]
    ensures Holds(a', b', data)
  {
    forall i | 0 <= i < |data| ensures ByteAt(a', b', i) == data[i] {
      var k := i / BLOCK_SIZE;
      assert b[..n][k] == b'[..n][k];
      assert ByteAt(a, b, i) == data[i];
    }
  }

  lemma GrewTrans(b0: seq<bool>, b1: seq<bool>, b2: seq<bool>, lo: nat, g0: seq<u32>, g1: seq<u32>)
    requires Grew(b0, b1, lo, g0) && Grew(b1, b2, lo, g1)
    ensures Grew(b0, b2, lo, g0 + g1)
  {
    hide FreeCount;
    var g := g0 + g1;
    forall i, j | 0 <= i < j < |g| ensures g[i] != g[j] {
      if i < |g0| <= j { assert g0[i] in g0 && g1[j - |g0|] in g1; assert lo + (g0[i] - lo) in g0; }
    }
  }

  /** What a successful write of `buf` does to the file, the bitmap and everyone else. */
  ghost predicate Appended(files: map<nat, BlockMap>, a: seq<Sector>, d: InodeData, bits: seq<bool>,
                           a': seq<Sector>, d': InodeData, bits': seq<bool>, lo: nat, buf: seq<byte>) {
    && d'.no == d.no && FileOk(a', d', lo, lo + |bits|)
    && Contents(a', d') == Contents(a, d) + buf
    && Agree(files[d.no as nat := d'.sectors], a', bits', lo)
    && OthersKept(files, d.no, a, a')
    && FreeCount(bits') + BlocksNeeded(d, |buf|) == FreeCount(bits)
  }

  /** Appends `buf`. It is refused beyond 71680 bytes, and a file that would become exactly 71680
      bytes long passes that test and fails the assertion on 140 blocks behind it. The data is
      written then; but the buffer handed to inode_sync is one sector long, and overrun if the
      inode's record straddles two. */
  method FileWrite(part: Partition, file: File, buf: seq<byte>, ghost files: map<nat, BlockMap>) returns (r: WriteResult)
    requires part.Valid() && |buf| < 0xC000_0000
    requires 0 < file.fdInode.iNo < INODE_CNT && file.fdInode.iNo in files && files[file.fdInode.iNo] == file.fdInode.iSectors
    requires Agree(files, part.disk.sectors, part.BlockBits(), part.dataStart)
    requires FileOk(part.disk.sectors, file.fdInode.Data(), part.dataStart, part.dataStart + part.blockCnt)
    requires file.fdInode.iSize + |buf| <= MAX_FILE_SIZE ==>
               FreeCount(part.BlockBits()) >= BlocksNeeded(file.fdInode.Data(), |buf|)
    modifies part.disk, part.blockBitmap.bits, file, file.fdInode`iSize, file.fdInode`iSectors
    ensures part.Valid()
    ensures r.Refused? <==> old(file.fdInode.iSize) + |buf| > MAX_FILE_SIZE
    ensures r.Panic? <==> old(file.fdInode.iSize) + |buf| == MAX_FILE_SIZE
    ensures r.Refused? ==> part.disk.sectors == old(part.disk.sectors) && file.fdInode.Data() == old(file.fdInode.Data()) &&
                           part.BlockBits() == old(part.BlockBits()) && file.fdPos == old(file.fdPos)
    ensures r.Overrun? <==> old(file.fdInode.iSize) + |buf| < MAX_FILE_SIZE && Straddles(file.fdInode.iNo % 256)
    ensures r.Written? ==> r.n == |buf|
    ensures r.Written? || r.Overrun? ==> file.fdPos == if file.fdInode.iSize == 0 then 0xffff_ffff else file.fdInode.iSize - 1
    ensures r.Written? || r.Overrun? ==>
              Appended(files, old(part.disk.sectors), old(file.fdInode.Data()), old(part.BlockBits()),
                       part.disk.sectors, file.fdInode.Data(), part.BlockBits(), part.dataStart, buf)
    ensures r.Written? ==>
              Table(part.disk.sectors, part.inodeTable)
              == Table(old(part.disk.sectors), part.inodeTable)[file.fdInode.iNo % 256 := EncodeInode(file.fdInode.Data())]
    ensures r.Overrun? ==>
              Table(part.disk.sectors, part.inodeTable) == Table(old(part.disk.sectors), part.inodeTable) &&
              r.behind == SyncBuffer(part.disk.sectors, part.inodeTable, file.fdInode.Data())[SECTOR_SIZE..]
  {
    hide Agree, Grew, Ready, Apart, Blocks, Named, Appended, FreeCount, Unpack, Contents, Table, EncodeInode, FileOk, Dense, Wrap, Slot, Word, Masked,
      SyncBuffer, Straddles;
    var inode, count := file.fdInode, |buf|;
    if inode.iSize + count > BLOCK_SIZE * 140 {
      return Refused;
    }
    ghost var a, d, bits, lo := part.disk.sectors, inode.Data(), part.BlockBits(), part.dataStart;
    FileSizes(a, d, lo, lo + |bits|);
    ghost var got0 := FirstWrite(part, inode, files);
    GrewCount(bits, part.BlockBits(), lo, got0);
    var fileHasUsedBlocks := inode.iSize / BLOCK_SIZE + 1;
    var fileWillUseBlocks := (inode.iSize + count) / BLOCK_SIZE + 1;
    if fileWillUseBlocks > 140 {
      return Panic;
    }
    var synced := AppendBlocks(part, file, buf, fileHasUsedBlocks, fileWillUseBlocks, files, d, bits, got0);
    WrapSmall(inode.iSize - 1);
    r := if synced.Synced? then Written(count) else WriteResult.Overrun(synced.behind);
  }

  /** The rest of file_write, once its first block exists: collect, write the chunks, sync. */
  method AppendBlocks(part: Partition, file: File, buf: seq<byte>, used: nat, will: nat,
                      ghost files: map<nat, BlockMap>, ghost d: InodeData, ghost bits: seq<bool>, ghost got0: seq<u32>)
      returns (r: SyncResult)
    requires part.Valid() && Started(part.disk.sectors, d, bits, file.fdInode.iSectors, part.BlockBits(), part.dataStart, got0)
    requires file.fdInode.iNo == d.no && file.fdInode.iSize == d.size && 0 < d.no < INODE_CNT && d.no in files && files[d.no] == d.sectors
    requires Agree(files, part.disk.sectors, bits, part.dataStart)
    requires used == d.size / BLOCK_SIZE + 1 && will == (d.size + |buf|) / BLOCK_SIZE + 1 && d.size + |buf| < MAX_FILE_SIZE
    requires FreeCount(part.BlockBits()) >= will - used + if used <= DIRECT < will then 1 else 0
    modifies part.disk, part.blockBitmap.bits, file, file.fdInode`iSize, file.fdInode`iSectors
    ensures part.Valid() && file.fdPos == Wrap(file.fdInode.iSize - 1) && file.fdInode.iSize == d.size + |buf|
    ensures Appended(files, old(part.disk.sectors), d, bits,
                     part.disk.sectors, file.fdInode.Data(), part.BlockBits(), part.dataStart, buf)
    ensures r.Overrun? <==> Straddles(d.no % 256)
    ensures r.Synced? ==>
              Table(part.disk.sectors, part.inodeTable)
              == Table(old(part.disk.sectors), part.inodeTable)[d.no % 256 := EncodeInode(file.fdInode.Data())]
    ensures r.Overrun? ==>
              Table(part.disk.sectors, part.inodeTable) == Table(old(part.disk.sectors), part.inodeTable) &&
              r.behind == SyncBuffer(part.disk.sectors, part.inodeTable, file.fdInode.Data())[SECTOR_SIZE..]
  {
    hide Agree, Grew, Ready, Collected, Dense, Apart, Blocks, Named, Holds, Located, Covers, Untouched, SameOutsideTable,
      Appended, FreeCount, Unpack, Contents, Table, EncodeInode, FileOk, Wrap, SyncBuffer, Straddles, Masked;
    var inode := file.fdInode;
    ghost var a, m1, bits1, lo := part.disk.sectors, inode.iSectors, part.BlockBits(), part.dataStart;
    var allBlocks, got := CollectBlocks(part, inode, used, will);
    ghost var a2, m2, bits2 := part.disk.sectors, inode.iSectors, part.BlockBits();
    ghost var grown := Growth(a, d, m1, bits, bits1, bits2, lo, used, will, got0, got, a2, m2, allBlocks);
    BeforeChunks(grown);
    WriteChunks(part, file, allBlocks, buf, Blocks(a2, m2), will, Contents(a, d));
    ghost var a3 := part.disk.sectors;
    TableUntouched(grown, a3, part.inodeTable);
    r := part.InodeSync(inode, SECTOR_SIZE);
    AfterChunks(grown, files, buf, a3, part.disk.sectors, part.inodeTable, inode.Data());
  }

  /** The file has at least one block; `got0` is the block taken just now, if any. */
  ghost predicate Started(a: seq<Sector>, d: InodeData, bits: seq<bool>, m1: BlockMap, bits1: seq<bool>, lo: nat, got0: seq<u32>) {
    && FileOk(a, d, lo, lo + |bits|) && lo + |bits| <= |a| && |bits| == |bits1|
    && Grew(bits, bits1, lo, got0) && Ready(a, m1, d.size / BLOCK_SIZE + 1, bits1, lo)
    && (forall x :: x in Owned(a, m1) <==> x in Owned(a, d.sectors) || x in got0)
    && (got0 == [] ==> m1 == d.sectors) && (got0 != [] ==> d.size == 0)
    && |got0| == if d.sectors[0] == 0 then 1 else 0
  }

  lemma FileSizes(a: seq<Sector>, d: InodeData, lo: nat, hi: nat)
    requires FileOk(a, d, lo, hi)
    ensures d.size < MAX_FILE_SIZE
  {
  }

  lemma GrewCount(b0: seq<bool>, b1: seq<bool>, lo: nat, got: seq<u32>)
    requires Grew(b0, b1, lo, got)
    ensures FreeCount(b1) + |got| == FreeCount(b0) && |b1| == |b0|
  {
  }

  /** The states a write passes through: the start, after the first block, after collecting. */
  datatype Growth = Growth(a: seq<Sector>, d: InodeData, m1: BlockMap, bits: seq<bool>, bits1: seq<bool>, bits2: seq<bool>,
                           lo: nat, used: nat, will: nat, got0: seq<u32>, got: seq<u32>,
                           a2: seq<Sector>, m2: BlockMap, allBlocks: seq<u32>)
  {
    ghost predicate Valid() {
      && Started(a, d, bits, m1, bits1, lo, got0) && |bits| == |bits2| && will <= ALL_BLOCKS
      && used == d.size / BLOCK_SIZE + 1 && Collected(a, m1, used, bits1, lo, a2, m2, will, bits2, allBlocks, got)
    }

    ghost predicate ChunksDone(a3: seq<Sector>, buf: seq<byte>) {
      var b := Blocks(a2, m2);
      will <= |b| && Holds(a3, b, Contents(a, d) + buf) && Untouched(a2, a3, b[..will])
    }
  }

  lemma BeforeChunks(g: Growth)
    requires g.Valid()
    ensures Located(Blocks(g.a2, g.m2), g.will, g.a2) && Covers(g.allBlocks, Blocks(g.a2, g.m2), g.d.size / BLOCK_SIZE, g.will)
    ensures Holds(g.a2, Blocks(g.a2, g.m2), Contents(g.a, g.d))
  {
    hide Blocks, Grew, Named, Contents, ByteAt;
    var b1, b2, data := Blocks(g.a, g.m1), Blocks(g.a2, g.m2), Contents(g.a, g.d);
    LocatedBy(b2, g.m2[12], g.will, g.lo, g.lo + |g.bits|, g.a2);
    ContentsAre(g.a, g.d, data);
    if g.got0 == [] {
      forall k | 0 <= k < g.used ensures b1[k] < |g.a| && g.a2[b1[k]] == g.a[b1[k]] {
        assert b2[..g.used][k] == b1[..g.used][k];
      }
      HoldsKept(g.a, g.a2, b1, b2, g.used, data);
    } else {
      HoldsNothing(g.a2, b2, data);
    }
  }

  /** Up to the final sync, only data sectors are written. */
  lemma TableUntouched(g: Growth, a3: seq<Sector>, t0: nat)
    requires g.Valid() && g.will <= |Blocks(g.a2, g.m2)| && Untouched(g.a2, a3, Blocks(g.a2, g.m2)[..g.will])
    requires 0 < t0 && g.lo == t0 + TABLE_SECTS
    ensures |a3| == |g.a| && t0 + TABLE_SECTS <= |g.a| && Table(a3, t0) == Table(g.a, t0)
  {
    hide Blocks, Grew, FileOk, Ready, Named, Table, Covers;
    var b := Blocks(g.a2, g.m2);
    forall k | t0 <= k < t0 + TABLE_SECTS ensures a3[k] == g.a[k] {
      assert k !in b[..g.will];
    }
    TableElsewhere(g.a, a3, t0);
  }

  lemma HoldsNothing(a: seq<Sector>, b: seq<u32>, data: seq<byte>)
    requires data == []
    ensures Holds(a, b, data)
  {
  }

  lemma AfterChunks(g: Growth, files: map<nat, BlockMap>, buf: seq<byte>, a3: seq<Sector>, a4: seq<Sector>, t0: nat, d': InodeData)
    requires g.Valid() && g.d.no in files && g.d.no != 0 && files[g.d.no] == g.d.sectors && Agree(files, g.a, g.bits, g.lo)
    requires d'.no == g.d.no && d'.size == g.d.size + |buf| < MAX_FILE_SIZE && d'.sectors == g.m2
    requires g.will == d'.size / BLOCK_SIZE + 1
    requires g.ChunksDone(a3, buf)
    requires SameOutsideTable(a3, a4, t0) && g.lo == t0 + TABLE_SECTS
    ensures Appended(files, g.a, g.d, g.bits, a4, d', g.bits2, g.lo, buf)
  {
    hide Blocks, Named, Contents, Holds, Agree, OthersKept, FreeCount, ByteAt;
    var b2 := Blocks(g.a2, g.m2);
    SameBlocks(g.a2, a3, a4, g.m2, g.will, g.lo, g.lo + |g.bits|, t0);
    LocatedBy(b2, g.m2[12], g.will, g.lo, g.lo + |g.bits|, g.a2);
    ContentsWritten(a3, a4, b2, g.will, g.lo, t0, d', Contents(g.a, g.d) + buf);
    GrewTrans(g.bits, g.bits1, g.bits2, g.lo, g.got0, g.got);
    OnlyOwnTouched(g, a3, a4, t0);
    FirstEntry(a4, g.m2);
    GrowthKeepsAgreement(files, g.a, g.bits, g.lo, g.d.no, g.m2, a4, g.bits2, g.got0 + g.got);
  }

  lemma FirstEntry(a: seq<Sector>, m: BlockMap)
    ensures Blocks(a, m)[0] == m[0]
  {
    assert Blocks(a, m)[..DIRECT][0] == m[..DIRECT][0];
  }

  lemma ContentsWritten(a3: seq<Sector>, a4: seq<Sector>, b: seq<u32>, n: nat, lo: nat, t0: nat, d: InodeData, data: seq<byte>)
    requires Located(b, n, a3) && Holds(a3, b, data) && SameOutsideTable(a3, a4, t0) && lo == t0 + TABLE_SECTS
    requires forall k :: 0 <= k < n ==> b[k] >= lo
    requires |data| == d.size <= BLOCK_SIZE * n && b == Blocks(a4, d.sectors)
    ensures Contents(a4, d) == data
  {
    hide Blocks, Contents, Holds, ByteAt;
    HoldsKept(a3, a4, b, b, n, data);
    ContentsAre(a4, d, data);
  }

  lemma OnlyOwnTouched(g: Growth, a3: seq<Sector>, a4: seq<Sector>, t0: nat)
    requires g.Valid() && Untouched(g.a2, a3, Blocks(g.a2, g.m2)[..g.will])
    requires SameOutsideTable(a3, a4, t0) && g.lo == t0 + TABLE_SECTS && Blocks(a4, g.m2) == Blocks(g.a2, g.m2)
    ensures |a4| == |g.a| && forall x :: g.lo <= x < |g.a| && x !in Owned(a4, g.m2) ==> a4[x] == g.a[x]
  {
    hide Blocks, Grew, FileOk, Ready, Dense, Apart;
    var b := Blocks(g.a2, g.m2);
    forall x | g.lo <= x < |g.a| && x !in Owned(a4, g.m2) ensures a4[x] == g.a[x] {
      assert x != 0 && x !in b;
      assert x !in b[..g.will];
    }
  }

  /** The first block of a file that was never written. */
  method FirstWrite(part: Partition, inode: Inode, ghost files: map<nat, BlockMap>) returns (ghost got: seq<u32>)
    requires part.Valid() && inode.iNo > 0 && inode.iNo in files && files[inode.iNo] == inode.iSectors
    requires Agree(files, part.disk.sectors, part.BlockBits(), part.dataStart)
    requires FileOk(part.disk.sectors, inode.Data(), part.dataStart, part.dataStart + part.blockCnt)
    requires inode.iSectors[0] == 0 ==> FreeCount(part.BlockBits()) > 0
    modifies part.blockBitmap.bits, inode`iSectors
    ensures part.Valid() && Grew(old(part.BlockBits()), part.BlockBits(), part.dataStart, got)
    ensures |got| == if old(inode.iSectors)[0] == 0 then 1 else 0
    ensures Ready(part.disk.sectors, inode.iSectors, inode.iSize / BLOCK_SIZE + 1, part.BlockBits(), part.dataStart)
    ensures forall x :: x in Owned(part.disk.sectors, inode.iSectors) <==>
                        x in Owned(part.disk.sectors, old(inode.iSectors)) || x in got
    ensures got == [] ==> inode.iSectors == old(inode.iSectors)
    ensures got != [] ==> old(inode.iSize) == 0
  {
    hide Blocks, Named, Apart, FreeCount, Agree, Unpack, Grew, Ready, IsFirstFit, Masked;
    ghost var a, before, lo := part.disk.sectors, part.BlockBits(), part.dataStart;
    got := [];
    GrewStart(before, lo);
    AgreeReady(files, a, before, lo, inode.iNo, BlockCount(inode.Data()));
    if inode.iSectors[0] == 0 {
      ghost var m := inode.iSectors;
      var blockLba := BlockBitmapAlloc(part, before, []);
      RootBitSet(files, a, before, lo, part.BlockBits(), blockLba);
      assert blockLba - part.dataStart != 0;
      got := [] + [blockLba];
      assert got == [blockLba];
      FirstBlock(a, m, before, part.BlockBits(), lo, blockLba);
      inode.iSectors := inode.iSectors[0 := blockLba];
    }
  }

  lemma RootBitSet(files: map<nat, BlockMap>, a: seq<Sector>, before: seq<bool>, lo: nat, bits: seq<bool>, lba: u32)
    requires Agree(files, a, before, lo) && Grew(before, bits, lo, [] + [lba])
    ensures lba != lo
  {
    RootOwnsFirst(files, a, before, lo);
    assert lba in [] + [lba];
  }

  // ----- file_read

  /** Collecting block addresses start..end, in the source's five cases. */
  method CollectForRead(part: Partition, inode: Inode, start: nat, end: nat) returns (allBlocks: seq<u32>)
    requires part.Valid() && start <= end < ALL_BLOCKS
    requires end >= DIRECT ==> 0 < inode.iSectors[12] < |part.disk.sectors|
    ensures Covers(allBlocks, Blocks(part.disk.sectors, inode.iSectors), start, end + 1)
  {
    hide DecodeWords;
    ghost var b := Blocks(part.disk.sectors, inode.iSectors);
    assert forall k :: 0 <= k < DIRECT ==> b[k] == b[..DIRECT][k] == inode.iSectors[k];
    allBlocks := NoBlocks(ALL_BLOCKS);
    var readBlocks := end - start;
    if readBlocks == 0 {
      if end < 12 {
        allBlocks := allBlocks[end := inode.iSectors[end]];
      } else {
        allBlocks := LoadTable(part, inode.iSectors[12]);
      }
    } else if end < 12 {
      allBlocks := CopyDirect(inode, start, end + 1, allBlocks);
    } else if start < 12 && end >= 12 {
      var direct := CopyDirect(inode, start, 12, allBlocks);
      assert inode.iSectors[12] != 0;
      var table := LoadTable(part, inode.iSectors[12]);
      allBlocks := direct[..12] + table[12..];
    } else {
      assert inode.iSectors[12] != 0;
      allBlocks := LoadTable(part, inode.iSectors[12]);
    }
  }

  method CopyDirect(inode: Inode, start: nat, end: nat, blocks: seq<u32>) returns (allBlocks: seq<u32>)
    requires start <= end <= DIRECT && |blocks| == ALL_BLOCKS
    ensures |allBlocks| == ALL_BLOCKS && forall k :: start <= k < end ==> allBlocks[k] == inode.iSectors[k]
  {
    allBlocks := blocks;
    var blockIdx := start;
    while blockIdx < end
      invariant start <= blockIdx <= end && |allBlocks| == ALL_BLOCKS
      invariant forall k :: start <= k < blockIdx ==> allBlocks[k] == inode.iSectors[k]
    {
      allBlocks := allBlocks[blockIdx := inode.iSectors[blockIdx]];
      blockIdx := blockIdx + 1;
    }
  }

  /** One sector holds the stretch of the contents that the read loop takes from it. */
  lemma ReadChunk(a: seq<Sector>, d: InodeData, n: nat, pos: nat, idx: nat, off: nat, chunk: nat)
    requires Located(Blocks(a, d.sectors), n, a) && idx < n && pos == BLOCK_SIZE * idx + off && off + chunk <= BLOCK_SIZE
    requires pos + chunk <= d.size
    ensures a[Blocks(a, d.sectors)[idx]][off..off + chunk] == Contents(a, d)[pos..pos + chunk]
  {
    hide Blocks, Located;
    var b, c := Blocks(a, d.sectors), Contents(a, d);
    LocatedEntry(b, n, a, idx);
    var s := a[b[idx]][off..off + chunk];
    forall j | 0 <= j < chunk ensures s[j] == c[pos..pos + chunk][j] {
      assert (pos + j) / BLOCK_SIZE == idx && (pos + j) % BLOCK_SIZE == off + j;
      assert c[pos + j] == ByteAt(a, b, pos + j);
    }
  }

  lemma LocatedEntry(b: seq<u32>, n: nat, a: seq<Sector>, idx: nat)
    requires Located(b, n, a) && idx < n
    ensures idx < |b| && b[idx] < |a|
  {
  }

  /** The read loop. */
  method ReadChunks(part: Partition, file: File, allBlocks: seq<u32>, size: nat, ghost n: nat) returns (buf: seq<byte>)
    requires Located(Blocks(part.disk.sectors, file.fdInode.iSectors), n, part.disk.sectors)
    requires file.fdPos + size <= file.fdInode.iSize < BLOCK_SIZE * n
    requires Covers(allBlocks, Blocks(part.disk.sectors, file.fdInode.iSectors), file.fdPos / BLOCK_SIZE, (file.fdPos + size) / BLOCK_SIZE + 1)
    modifies file`fdPos
    ensures file.fdPos == old(file.fdPos) + size
    ensures buf == Contents(part.disk.sectors, file.fdInode.Data())[old(file.fdPos)..old(file.fdPos) + size]
  {
    hide Blocks, Located, Covers, Contents;
    ghost var a, b, c := part.disk.sectors, Blocks(part.disk.sectors, file.fdInode.iSectors), Contents(part.disk.sectors, file.fdInode.Data());
    ghost var pos := file.fdPos;
    var bytesRead, sizeLeft := 0, size;
    buf := [];
    while bytesRead < size
      invariant bytesRead <= size && sizeLeft == size - bytesRead && file.fdPos == pos + bytesRead
      invariant buf == c[pos..pos + bytesRead]
    {
      var secIdx := file.fdPos / BLOCK_SIZE;
      ReadEntry(allBlocks, b, pos, size, n, a, secIdx, file.fdPos);
      var secLba := allBlocks[secIdx];
      var secOffBytes := file.fdPos % BLOCK_SIZE;
      var secLeftBytes := BLOCK_SIZE - secOffBytes;
      var chunkSize := Min(sizeLeft, secLeftBytes);
      ChunkFills(file.fdPos, sizeLeft);
      var ioBuf := part.disk.ReadSector(secLba);
      ReadChunk(a, file.fdInode.Data(), n, file.fdPos, secIdx, secOffBytes, chunkSize);
      buf := buf + ioBuf[secOffBytes..secOffBytes + chunkSize];
      file.fdPos := file.fdPos + chunkSize;
      bytesRead := bytesRead + chunkSize;
      sizeLeft := sizeLeft - chunkSize;
    }
  }

  lemma ReadEntry(allBlocks: seq<u32>, b: seq<u32>, pos: nat, size: nat, n: nat, a: seq<Sector>, k: nat, at: nat)
    requires Located(b, n, a) && Covers(allBlocks, b, pos / BLOCK_SIZE, (pos + size) / BLOCK_SIZE + 1)
    requires pos <= at < pos + size && pos + size < BLOCK_SIZE * n && k == at / BLOCK_SIZE
    ensures k < n && k < |allBlocks| && k < |b| && allBlocks[k] == b[k] < |a|
  {
  }

  /** Reads up to `count` bytes at the file position. At the end of the file it answers -1. The
      assertion on block 139 halts the kernel exactly when the stretch reaches byte 71168, or when
      the position is the 2^32 - 1 that writing nothing to an empty file leaves behind. */
  method FileRead(part: Partition, file: File, count: nat) returns (r: ReadResult)
    requires part.Valid() && (file.fdPos <= file.fdInode.iSize || file.fdPos == 0xFFFF_FFFF) && count < 0xC000_0000
    requires FileOk(part.disk.sectors, file.fdInode.Data(), part.dataStart, part.dataStart + part.blockCnt)
    modifies file`fdPos
    ensures old(file.fdPos) > file.fdInode.iSize ==> r.ReadPanic?
    ensures old(file.fdPos) <= file.fdInode.iSize ==>
              var avail := Min(count, file.fdInode.iSize - old(file.fdPos));
              && (r.AtEnd? <==> avail == 0 < count)
              && (r.ReadPanic? <==> !r.AtEnd? && (old(file.fdPos) + avail) / BLOCK_SIZE >= 139)
              && (r.Read? ==> file.fdPos == old(file.fdPos) + avail)
              && (r.Read? ==> r.bytes == Contents(part.disk.sectors, file.fdInode.Data())[old(file.fdPos)..old(file.fdPos) + avail])
    ensures !r.Read? ==> file.fdPos == old(file.fdPos)
  {
    hide Blocks, Apart, Contents, Covers, Located, Wrap, FileOk;
    var inode, size := file.fdInode, count;
    WrapSmall(file.fdPos + count);
    WrapSmall(inode.iSize - file.fdPos);
    FileSizes(part.disk.sectors, inode.Data(), part.dataStart, part.dataStart + part.blockCnt);
    if Wrap(file.fdPos + count) > inode.iSize {
      size := Wrap(inode.iSize - file.fdPos);
      if size == 0 {
        return AtEnd;
      }
    }
    WrapSmall(file.fdPos + size);
    var blockReadStartIdx := file.fdPos / BLOCK_SIZE;
    var blockReadEndIdx := Wrap(file.fdPos + size) / BLOCK_SIZE;
    if !(blockReadStartIdx < 139 && blockReadEndIdx < 139) {
      return ReadPanic;
    }
    ReadableBlocks(part.disk.sectors, inode.Data(), part.dataStart, part.dataStart + part.blockCnt);
    var allBlocks := CollectForRead(part, inode, blockReadStartIdx, blockReadEndIdx);
    if size == 0 {
      r := Read([]);
    } else {
      var buf := ReadChunks(part, file, allBlocks, size, BlockCount(inode.Data()));
      r := Read(buf);
    }
  }

  lemma ReadableBlocks(a: seq<Sector>, d: InodeData, lo: nat, hi: nat)
    requires FileOk(a, d, lo, hi) && hi <= |a|
    ensures Located(Blocks(a, d.sectors), BlockCount(d), a)
    ensures d.size >= BLOCK_SIZE * DIRECT ==> 0 < d.sectors[12] < |a|
    ensures d.size > 0 ==> d.size < BLOCK_SIZE * BlockCount(d)
  {
    hide Blocks;
    LocatedBy(Blocks(a, d.sectors), d.sectors[12], BlockCount(d), lo, hi, a);
  }

  /** Whatever keeps the other inodes' blocks keeps the other files' contents. */
  lemma OtherFilesUnchanged(files: map<nat, BlockMap>, no: nat, a: seq<Sector>, a': seq<Sector>, d: InodeData, lo: nat, hi: nat)
    requires OthersKept(files, no, a, a') && d.no != no && d.no as nat in files && files[d.no] == d.sectors && FileOk(a, d, lo, hi)
    ensures FileOk(a', d, lo, hi) && Contents(a', d) == Contents(a, d)
  {
    hide Blocks, Apart;
    var b := Blocks(a, d.sectors);
    assert KeptIn(files[d.no], a, a');
    forall i | 0 <= i < d.size ensures ByteAt(a', b, i) == ByteAt(a, b, i) {
      var x := b[i / BLOCK_SIZE];
      assert x != 0 && x as int in Owned(a, d.sectors);
    }
    assert Contents(a', d) == Contents(a, d);
  }

  /** A closed file, known only by its record, is unchanged too, unless the sync hit its slot. */
  lemma ClosedFileUnchanged(files: map<nat, BlockMap>, no: nat, a: seq<Sector>, a': seq<Sector>, t0: nat, record: seq<byte>,
                            n: nat, lo: nat, hi: nat)
    requires t0 + TABLE_SECTS <= |a| == |a'| && |record| == INODE_SIZE && n < INODE_CNT && n in files && n != no
    requires OthersKept(files, no, a, a') && Table(a', t0) == Table(a, t0)[no % 256 := record] && n != no % 256
    requires var d := DecodeInode(Table(a, t0)[n]); d.no == n && d.sectors == files[n] && FileOk(a, d, lo, hi)
    ensures Table(a', t0)[n] == Table(a, t0)[n]
    ensures var d := DecodeInode(Table(a, t0)[n]); FileOk(a', d, lo, hi) && Contents(a', d) == Contents(a, d)
  {
    hide FileOk, Contents, DecodeInode, Table;
    OtherFilesUnchanged(files, no, a, a', DecodeInode(Table(a, t0)[n]), lo, hi);
  }
}

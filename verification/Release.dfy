/** Giving back everything a deleted inode owns (inode_release in fs/inode.c). */
module Release {
  import opened Bitmaps
  import opened Disks
  import opened Inodes
  import opened Ownership

  /** What opening inode `no` would yield. */
  ghost predicate Opens(part: Partition, no: nat, m: BlockMap)
    requires part.Valid() && no < INODE_CNT
    reads part, part.disk, part.openInodes, part.blockBitmap.bits
  {
    && (forall e :: e in part.openInodes && e.iNo == no ==> e.iSectors == m)
    && ((forall e :: e in part.openInodes ==> e.iNo != no) ==>
          var d := DecodeInode(Table(part.disk.sectors, part.inodeTable)[no]); d.no == no && d.sectors == m)
  }

  /** The bits of `s` have been cleared, no others. */
  ghost predicate Cleared(before: seq<bool>, bits: seq<bool>, lo: nat, s: set<int>) {
    |bits| == |before| && forall i :: 0 <= i < |bits| ==> (bits[i] <==> before[i] && lo + i !in s)
  }

  /** The table block and the first `n` entries. */
  ghost function Given(b: seq<u32>, t: u32, n: nat): set<int>
    requires n <= |b|
  {
    Named(b[..n], t)
  }

  lemma GiveNext(before: seq<bool>, bits: seq<bool>, lo: nat, b: seq<u32>, t: u32, n: nat)
    requires n < |b| && Cleared(before, bits, lo, Given(b, t, n))
    requires b[n] != 0 ==> lo <= b[n] < lo + |bits|
    ensures Cleared(before, if b[n] == 0 then bits else bits[b[n] - lo := false], lo, Given(b, t, n + 1))
  {
    assert b[..n + 1] == b[..n] + [b[n]];
    forall x: int ensures x in Given(b, t, n + 1) <==> x in Given(b, t, n) || (x == b[n] && x != 0) {}
  }

  /** Without a table only the twelve direct entries can name a block. */
  lemma DirectIsAll(a: seq<Sector>, m: BlockMap)
    requires m[12] == 0
    ensures Given(Blocks(a, m), 0, DIRECT) == Owned(a, m)
  {
    var b := Blocks(a, m);
    forall x | x in b && x != 0 ensures x in b[..DIRECT] {
      var k :| 0 <= k < |b| && b[k] == x;
      assert b[..DIRECT][k] == x;
    }
    forall x | x in b[..DIRECT] ensures x in b {}
  }

  const EMPTY: BlockMap := [0, 0, 0, 0, 0, 0, 0, 0, 0, 0, 0, 0, 0]

  lemma EmptyOwnsNothing(a: seq<Sector>, lo: nat, hi: nat)
    ensures Owned(a, EMPTY) == {} && Apart(Blocks(a, EMPTY), 0, lo, hi)
  {
    var b := Blocks(a, EMPTY);
    forall k | 0 <= k < |b| ensures b[k] == 0 {
      if k < DIRECT { assert b[..DIRECT][k] == EMPTY[..DIRECT][k]; }
    }
  }

  lemma InsideDisk(files: map<nat, BlockMap>, a: seq<Sector>, bits: seq<bool>, lo: nat)
    requires Agree(files, a, bits, lo)
    ensures 0 < lo && lo + |bits| <= |a| && 0 in files
  {
    hide AllApart, Partitioned;
  }

  /** Clearing exactly what one inode owns leaves the others exactly covered. */
  lemma ReleaseKeepsAgreement(files: map<nat, BlockMap>, a: seq<Sector>, bits: seq<bool>, lo: nat, no: nat, bits': seq<bool>)
    requires Agree(files, a, bits, lo) && no in files && no != 0 && Cleared(bits, bits', lo, Owned(a, files[no]))
    ensures Agree(files - {no}, a, bits', lo)
  {
    hide Blocks, Named, Apart, Agree, OthersKept;
    EmptyOwnsNothing(a, lo, lo + |bits|);
    InsideDisk(files, a, bits, lo);
    OwnershipFrame(files, a, bits, lo, no, EMPTY, a, bits');
    OwnershipDrop(files[no := EMPTY], a, bits', lo, no);
    assert files[no := EMPTY] - {no} == files - {no};
  }

  /** Frees the blocks and the number of inode `inodeNo`: exactly the blocks it owned. */
  method InodeRelease(part: Partition, inodeNo: nat, ghost files: map<nat, BlockMap>)
    requires part.Valid() && part.CacheOk() && 0 < inodeNo < INODE_CNT && inodeNo in files
    requires Opens(part, inodeNo, files[inodeNo])
    requires Agree(files, part.disk.sectors, part.BlockBits(), part.dataStart)
    modifies part`openInodes, part.openInodes, part.blockBitmap.bits, part.inodeBitmap.bits
    ensures part.Valid() && part.CacheOk()
    ensures part.openInodes == old(part.openInodes)
    ensures forall e :: e in part.openInodes ==> e.iOpenCnts == old(e.iOpenCnts) && e.Data() == old(e.Data())
    ensures part.inodeBitmap.View() == old(part.inodeBitmap.View())[inodeNo := false]
    ensures Cleared(old(part.BlockBits()), part.BlockBits(), part.dataStart, Owned(part.disk.sectors, files[inodeNo]))
    ensures Agree(files - {inodeNo}, part.disk.sectors, part.BlockBits(), part.dataStart)
  {
    hide Blocks, Named, Apart, Table, DecodeInode, Unpack, Agree, Cleared, Without, Partition.CacheOk, Masked;
    ghost var a, bits, lo := part.disk.sectors, part.BlockBits(), part.dataStart;
    var inodeToDel := part.InodeOpen(inodeNo);
    assert inodeToDel.iNo == inodeNo;
    FreeBlocks(part, inodeToDel.iSectors, files, inodeNo);
    ReleaseKeepsAgreement(files, a, bits, lo, inodeNo, part.BlockBits());
    part.inodeBitmap.Set(inodeNo, 0);
    ghost var held := part.openInodes;
    part.InodeClose(inodeToDel);
    DropFront(old(part.openInodes), inodeToDel, held, part.openInodes);
  }

  lemma DropFront<T>(s: seq<T>, e: T, held: seq<T>, t: seq<T>)
    ensures e !in s && held == [e] + s && (exists k :: Without(held, k, e, t)) ==> t == s
  {
    if e !in s && held == [e] + s && (exists k :: Without(held, k, e, t)) {
      forall i | 1 <= i < |held| ensures held[i] != e {
        assert held[i] == s[i - 1];
      }
    }
  }

  method FreeBlocks(part: Partition, m: BlockMap, ghost files: map<nat, BlockMap>, ghost no: nat)
    requires part.Valid() && no in files && files[no] == m && no != 0
    requires Agree(files, part.disk.sectors, part.BlockBits(), part.dataStart)
    modifies part.blockBitmap.bits
    ensures part.Valid()
    ensures Cleared(old(part.BlockBits()), part.BlockBits(), part.dataStart, Owned(part.disk.sectors, m))
  {
    hide Blocks, Named, Apart, Unpack, Agree, DecodeWords, Cleared, Masked;
    ghost var a, bits, lo := part.disk.sectors, part.BlockBits(), part.dataStart;
    ghost var b := Blocks(a, m);
    EntriesInRange(files, a, bits, lo, no);
    var allBlocks := m[..12] + NoBlocks(128);
    var entryCnt := 12;
    ClearedStart(bits, lo, b);
    if m[12] != 0 {
      var table := part.disk.ReadSector(m[12]);
      allBlocks := m[..12] + DecodeWords(table);
      entryCnt := 140;
      BlockBitmapFree(part, m[12]);
      ClearedTable(bits, lo, b, m[12]);
    }
    BlocksAre(a, m);
    var blockIdx := 0;
    while blockIdx < entryCnt
      invariant part.Valid() && blockIdx <= entryCnt && |b| == ALL_BLOCKS
      invariant Cleared(bits, part.BlockBits(), lo, Given(b, m[12], blockIdx))
    {
      GiveNext(bits, part.BlockBits(), lo, b, m[12], blockIdx);
      if allBlocks[blockIdx] != 0 {
        BlockBitmapFree(part, allBlocks[blockIdx]);
      }
      blockIdx := blockIdx + 1;
    }
    if m[12] == 0 { DirectIsAll(a, m); }
    assert b[..ALL_BLOCKS] == b;
  }

  lemma EntriesInRange(files: map<nat, BlockMap>, a: seq<Sector>, bits: seq<bool>, lo: nat, no: nat)
    requires Agree(files, a, bits, lo) && no in files && no != 0
    ensures var b := Blocks(a, files[no]);
            && (forall k :: 0 <= k < |b| && b[k] != 0 ==> lo < b[k] < lo + |bits|)
            && (files[no][12] != 0 ==> lo < files[no][12] < lo + |bits| <= |a|)
  {
    hide Blocks, Apart;
    var b, t := Blocks(a, files[no]), files[no][12];
    forall k | 0 <= k < |b| && b[k] != 0 ensures lo < b[k] < lo + |bits| {
      assert b[k] as int in Owned(a, files[no]);
      OwnedInRange(files, a, bits, lo, no, b[k]);
    }
    if t != 0 {
      assert t as int in Owned(a, files[no]);
      OwnedInRange(files, a, bits, lo, no, t);
    }
  }

  lemma ClearedStart(bits: seq<bool>, lo: nat, b: seq<u32>)
    ensures Cleared(bits, bits, lo, Given(b, 0, 0))
  {
  }

  lemma ClearedTable(bits: seq<bool>, lo: nat, b: seq<u32>, t: u32)
    requires lo <= t < lo + |bits| && t != 0
    ensures Cleared(bits, bits[t - lo := false], lo, Given(b, t, 0))
  {
  }
}

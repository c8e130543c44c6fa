/** Who owns which block: the block map of an inode spread out as the source's all_blocks array,
    and the agreement between all block maps and the in-memory block bitmap. */
module Ownership {
  import opened Bitmaps
  import opened Disks
  import opened Inodes

  const DIRECT := 12
  const ALL_BLOCKS := 140  // 12 direct blocks and the 128 entries of one table

  function NoBlocks(n: nat): (r: seq<u32>)
    ensures |r| == n && forall k :: 0 <= k < n ==> r[k] == 0
  {
    seq(n, i => 0)
  }

  /** all_blocks as every reader of a block map collects it: the direct entries, then the table. */
  function Blocks(sectors: seq<Sector>, m: BlockMap): (b: seq<u32>)
    ensures |b| == ALL_BLOCKS && b[..DIRECT] == m[..DIRECT]
  {
    m[..DIRECT] + if m[12] == 0 || m[12] >= |sectors| then NoBlocks(128) else DecodeWords(sectors[m[12]])
  }

  lemma BlocksAre(a: seq<Sector>, m: BlockMap)
    ensures m[12] == 0 ==> Blocks(a, m) == m[..12] + NoBlocks(128)
    ensures 0 < m[12] < |a| ==> Blocks(a, m) == m[..12] + DecodeWords(a[m[12]])
  {
    hide DecodeWords;
  }

  /** The blocks named by `b` and the table block `t`. */
  ghost function Named(b: seq<u32>, t: u32): (s: set<int>)
    ensures forall x: int :: x in s <==> (x in b || x == t) && x != 0
  {
    set x | x in b + [t] && x != 0
  }

  ghost function Owned(sectors: seq<Sector>, m: BlockMap): set<int> {
    Named(Blocks(sectors, m), m[12])
  }

  /** No block is named twice, and all lie in the data area. */
  ghost predicate Apart(b: seq<u32>, t: u32, lo: nat, hi: nat) {
    && (forall k :: 0 <= k < |b| && b[k] != 0 ==> lo <= b[k] < hi && b[k] != t)
    && (forall j, k :: 0 <= j < k < |b| && b[j] != 0 ==> b[j] != b[k])
    && (t != 0 ==> lo <= t < hi)
  }

  ghost function OwnMap(files: map<nat, BlockMap>, sectors: seq<Sector>): map<nat, set<int>> {
    map no | no in files :: Owned(sectors, files[no])
  }

  ghost predicate Taken(own: map<nat, set<int>>, x: int) {
    exists no :: no in own && x in own[no]
  }

  /** `bits` is exactly the disjoint union of the sets in `own`, shifted by `lo`. */
  ghost predicate Partitioned(own: map<nat, set<int>>, bits: seq<bool>, lo: nat) {
    && (forall p, q :: p in own && q in own && p != q ==> own[p] !! own[q])
    && (forall p, x :: p in own && x in own[p] ==> lo <= x < lo + |bits|)
    && (forall i :: 0 <= i < |bits| ==> (bits[i] <==> Taken(own, lo + i)))
  }

  ghost predicate AllApart(files: map<nat, BlockMap>, sectors: seq<Sector>, lo: nat, hi: nat) {
    forall no :: no in files ==> Apart(Blocks(sectors, files[no]), files[no][12], lo, hi)
  }

  /** The block bitmap is exactly the disjoint union of what the live inodes own. The root is
      inode 0 and owns the first data block. */
  ghost predicate Agree(files: map<nat, BlockMap>, sectors: seq<Sector>, bits: seq<bool>, lo: nat) {
    && 0 < lo && lo + |bits| <= |sectors| && 0 < |bits|
    && 0 in files && files[0][0] == lo
    && AllApart(files, sectors, lo, lo + |bits|)
    && Partitioned(OwnMap(files, sectors), bits, lo)
  }

  /** Every inode but `no` keeps its blocks and their bytes. */
  ghost predicate OthersKept(files: map<nat, BlockMap>, no: nat, a: seq<Sector>, b: seq<Sector>) {
    forall p :: p in files && p != no ==> KeptIn(files[p], a, b)
  }

  ghost predicate KeptIn(m: BlockMap, a: seq<Sector>, b: seq<Sector>) {
    |a| == |b| && Blocks(b, m) == Blocks(a, m) && forall x :: x in Owned(a, m) ==> 0 <= x < |a| && b[x] == a[x]
  }

  lemma RootOwnsFirst(files: map<nat, BlockMap>, sectors: seq<Sector>, bits: seq<bool>, lo: nat)
    requires Agree(files, sectors, bits, lo)
    ensures bits[0] && lo in Owned(sectors, files[0])
  {
    assert Blocks(sectors, files[0])[0] == lo;
    assert lo in OwnMap(files, sectors)[0];
    assert bits[0] <==> Taken(OwnMap(files, sectors), lo + 0);
  }

  lemma OwnedInRange(files: map<nat, BlockMap>, sectors: seq<Sector>, bits: seq<bool>, lo: nat, no: nat, x: int)
    requires Agree(files, sectors, bits, lo) && no in files && x in Owned(sectors, files[no])
    ensures lo <= x < lo + |bits| && bits[x - lo] && (no != 0 ==> x != lo)
  {
    var own := OwnMap(files, sectors);
    assert x in own[no];
    assert bits[x - lo] <==> Taken(own, lo + (x - lo));
    RootOwnsFirst(files, sectors, bits, lo);
    assert lo in own[0];
  }

  /** Replacing one set of a partition by one that reaches only into free space. */
  lemma PartitionedUpdate(own: map<nat, set<int>>, bits: seq<bool>, lo: nat, no: nat, s: set<int>, bits': seq<bool>)
    requires Partitioned(own, bits, lo) && no in own && |bits'| == |bits|
    requires forall x :: x in s ==> lo <= x < lo + |bits| && (x in own[no] || !bits[x - lo])
    requires forall i :: 0 <= i < |bits| ==> (bits'[i] <==> (bits[i] && lo + i !in own[no]) || lo + i in s)
    ensures Partitioned(own[no := s], bits', lo)
    ensures forall p :: p in own && p != no ==> own[p] !! s
  {
    forall p | p in own && p != no ensures own[p] !! s {
      forall x | x in own[p] ensures x !in s {
        assert bits[x - lo] <==> Taken(own, lo + (x - lo));
        assert x !in own[no];
      }
    }
    var own' := own[no := s];
    forall i | 0 <= i < |bits| ensures bits'[i] <==> Taken(own', lo + i) {
      if lo + i in s {
        assert lo + i in own'[no];
      } else if bits[i] && lo + i !in own[no] {
        var p :| p in own && lo + i in own[p];
        assert lo + i in own'[p];
      }
    }
  }

  lemma SameBlockMap(a: seq<Sector>, m: BlockMap, b: seq<Sector>)
    requires |a| == |b| && (0 < m[12] < |a| ==> b[m[12]] == a[m[12]])
    ensures Blocks(b, m) == Blocks(a, m)
  {
    hide DecodeWords;
  }

  lemma UntouchedKept(files: map<nat, BlockMap>, a: seq<Sector>, bits: seq<bool>, lo: nat, p: nat, b: seq<Sector>)
    requires Agree(files, a, bits, lo) && p in files && |a| == |b|
    requires forall x :: x in OwnMap(files, a)[p] && lo <= x < |a| ==> b[x] == a[x]
    ensures KeptIn(files[p], a, b)
  {
    hide Blocks, Named, AllApart, Partitioned;
    var m, own := files[p], Owned(a, files[p]);
    forall x | x in own ensures lo <= x < |a| && b[x] == a[x] {
      OwnedInRange(files, a, bits, lo, p, x);
      assert x in OwnMap(files, a)[p];
    }
    if m[12] != 0 { assert m[12] as int in own; }
    SameBlockMap(a, m, b);
  }

  lemma DataKept(files: map<nat, BlockMap>, a: seq<Sector>, bits: seq<bool>, lo: nat, i: nat, a': seq<Sector>)
    requires Agree(files, a, bits, lo) && i in files && |a'| == |a| && forall x :: lo <= x < |a| ==> a'[x] == a[x]
    ensures KeptIn(files[i], a, a')
  {
    hide Blocks, Named, Agree, KeptIn;
    UntouchedKept(files, a, bits, lo, i, a');
  }

  lemma SameKept(files: map<nat, BlockMap>, a: seq<Sector>, bits: seq<bool>, lo: nat, i: nat)
    requires Agree(files, a, bits, lo) && i in files
    ensures KeptIn(files[i], a, a)
  {
    hide KeptIn, Agree;
    DataKept(files, a, bits, lo, i, a);
  }

  lemma OthersUntouched(files: map<nat, BlockMap>, a: seq<Sector>, bits: seq<bool>, lo: nat, no: nat, b: seq<Sector>)
    requires Agree(files, a, bits, lo) && no in files && |a| == |b|
    requires forall p, x :: p in files && p != no && x in OwnMap(files, a)[p] && lo <= x < |a| ==> b[x] == a[x]
    ensures OthersKept(files, no, a, b)
  {
    forall p | p in files && p != no ensures KeptIn(files[p], a, b) {
      UntouchedKept(files, a, bits, lo, p, b);
    }
  }

  lemma UpdatedMaps(files: map<nat, BlockMap>, a: seq<Sector>, no: nat, m: BlockMap, b: seq<Sector>, lo: nat, hi: nat)
    requires no in files && OthersKept(files, no, a, b) && AllApart(files, a, lo, hi)
    ensures OwnMap(files[no := m], b) == OwnMap(files, a)[no := Owned(b, m)]
    ensures Apart(Blocks(b, m), m[12], lo, hi) ==> AllApart(files[no := m], b, lo, hi)
  {
    hide Blocks, Named, Apart;
    forall p | p in files && p != no ensures Blocks(b, files[p]) == Blocks(a, files[p]) {
      assert KeptIn(files[p], a, b);
    }
  }

  /** The one argument behind all block-map updates: an inode that only takes free blocks, gives
      back only its own, and writes only to blocks it owned before or owns after leaves the
      agreement intact and every other inode alone. */
  lemma OwnershipFrame(files: map<nat, BlockMap>, a: seq<Sector>, bits: seq<bool>, lo: nat,
                       no: nat, m: BlockMap, b: seq<Sector>, bits': seq<bool>)
    requires Agree(files, a, bits, lo) && no in files && |a| == |b| && |bits'| == |bits|
    requires Apart(Blocks(b, m), m[12], lo, lo + |bits|) && (no == 0 ==> m[0] == lo)
    requires forall x :: x in Owned(b, m) && x !in Owned(a, files[no]) ==> lo <= x < lo + |bits| && !bits[x - lo]
    requires forall i :: 0 <= i < |bits| ==>
               (bits'[i] <==> (bits[i] && lo + i !in Owned(a, files[no])) || lo + i in Owned(b, m))
    requires forall x :: lo <= x < |a| && x !in Owned(a, files[no]) && x !in Owned(b, m) ==> b[x] == a[x]
    ensures Agree(files[no := m], b, bits', lo) && OthersKept(files, no, a, b)
  {
    hide Blocks, Named;
    var own := OwnMap(files, a);
    PartitionedUpdate(own, bits, lo, no, Owned(b, m), bits');
    OthersUntouched(files, a, bits, lo, no, b);
    UpdatedMaps(files, a, no, m, b, lo, lo + |bits|);
  }

  /** An inode that owns nothing can be dropped. */
  lemma OwnershipDrop(files: map<nat, BlockMap>, sectors: seq<Sector>, bits: seq<bool>, lo: nat, no: nat)
    requires Agree(files, sectors, bits, lo) && no in files && no != 0 && Owned(sectors, files[no]) == {}
    ensures Agree(files - {no}, sectors, bits, lo)
  {
    hide Blocks, Named, Apart, Partitioned;
    assert OwnMap(files - {no}, sectors) == OwnMap(files, sectors) - {no};
    PartitionedDrop(OwnMap(files, sectors), bits, lo, no);
  }

  lemma PartitionedDrop(own: map<nat, set<int>>, bits: seq<bool>, lo: nat, no: nat)
    requires Partitioned(own, bits, lo) && no in own && own[no] == {}
    ensures Partitioned(own - {no}, bits, lo)
  {
    var rest := own - {no};
    forall x | Taken(own, x) ensures Taken(rest, x) {
      var p :| p in own && x in own[p];
      assert p in rest;
    }
  }

  /** An inode that grew only into free blocks keeps the bitmap exact and the other inodes whole. */
  lemma GrowthKeepsAgreement(files: map<nat, BlockMap>, a: seq<Sector>, bits: seq<bool>, lo: nat, no: nat,
                             m: BlockMap, a': seq<Sector>, bits': seq<bool>, got: seq<u32>)
    requires Agree(files, a, bits, lo) && no in files && (no == 0 ==> m[0] == lo) && |a| == |a'|
    requires Apart(Blocks(a', m), m[12], lo, lo + |bits|) && Grew(bits, bits', lo, got)
    requires forall x :: x in Owned(a', m) <==> x in Owned(a, files[no]) || x in got
    requires forall x :: lo <= x < |a| && x !in Owned(a', m) ==> a'[x] == a[x]
    ensures Agree(files[no := m], a', bits', lo) && OthersKept(files, no, a, a')
  {
    hide Blocks, Named, Apart, FreeCount;
    forall x | x in Owned(a, files[no]) ensures lo <= x < lo + |bits| && bits[x - lo] {
      OwnedInRange(files, a, bits, lo, no, x);
    }
    OwnershipFrame(files, a, bits, lo, no, m, a', bits');
  }

  /** The masked tail is never what a scan for one bit finds. */
  lemma MaskedScan(v: seq<bool>, n: nat, r: int)
    requires n <= |v| && Masked(v, n) && IsFirstFit(v, 1, r) && FreeCount(v[..n]) > 0
    ensures 0 <= r < n && !v[r] && IsFirstFit(v[..n], 1, r)
  {
    FreeCountPositive(v[..n]);
    var i :| 0 <= i < n && !v[..n][i];
    assert ClearRun(v, i, 1);
    forall q | ClearRun(v[..n], q, 1) ensures r <= q {
      assert !v[..n][q] && !v[q];
      assert ClearRun(v, q, 1);
    }
  }

  lemma MaskedUpdate(v: seq<bool>, n: nat, i: nat, b: bool)
    requires i < n <= |v| && Masked(v, n)
    ensures Masked(v[i := b], n) && v[i := b][..n] == v[..n][i := b]
  {
  }

  /** block_bitmap_alloc: the first clear bit, as a sector address. */
  method BlockBitmapAlloc(part: Partition, ghost before: seq<bool>, ghost got: seq<u32>) returns (lba: u32)
    requires part.Valid() && FreeCount(part.BlockBits()) > 0
    requires Grew(before, part.BlockBits(), part.dataStart, got)
    modifies part.blockBitmap.bits
    ensures part.Valid() && part.dataStart <= lba < |part.disk.sectors|
    ensures IsFirstFit(old(part.BlockBits()), 1, lba - part.dataStart)
    ensures part.BlockBits() == old(part.BlockBits())[lba - part.dataStart := true]
    ensures Grew(before, part.BlockBits(), part.dataStart, got + [lba])
  {
    hide Unpack, TestBit, IsFirstFit, Grew, FreeCount, Masked;
    ghost var bits, v := part.BlockBits(), part.blockBitmap.View();
    FreeCountPositive(bits);
    ghost var i :| 0 <= i < |bits| && !bits[i];
    assert !v[i];
    var bitIdx := part.blockBitmap.Scan(1);
    MaskedScan(v, part.blockCnt, bitIdx);
    MaskedUpdate(v, part.blockCnt, bitIdx, true);
    GrewStep(before, bits, part.dataStart, got, part.dataStart + bitIdx);
    part.blockBitmap.Set(bitIdx, 1);
    lba := part.dataStart + bitIdx;
  }

  /** inode_bitmap_alloc: the first free inode number. */
  method InodeBitmapAlloc(part: Partition) returns (inodeNo: nat)
    requires part.Valid() && FreeCount(part.inodeBitmap.View()) > 0
    modifies part.inodeBitmap.bits
    ensures part.Valid() && inodeNo < INODE_CNT && IsFirstFit(old(part.inodeBitmap.View()), 1, inodeNo)
    ensures !old(part.inodeBitmap.View())[inodeNo]
    ensures part.inodeBitmap.View() == old(part.inodeBitmap.View())[inodeNo := true]
  {
    hide Unpack, TestBit, IsFirstFit, FreeCount;
    FreeCountPositive(part.inodeBitmap.View());
    var bitIdx := part.inodeBitmap.Scan(1);
    FirstFitOfOne(part.inodeBitmap.View(), bitIdx);
    part.inodeBitmap.Set(bitIdx, 1);
    inodeNo := bitIdx;
  }

  /** bitmap_set(..., 0) on the bit of a data block. */
  method BlockBitmapFree(part: Partition, lba: nat)
    requires part.Valid() && part.dataStart <= lba < part.dataStart + part.blockCnt
    modifies part.blockBitmap.bits
    ensures part.Valid() && part.BlockBits() == old(part.BlockBits())[lba - part.dataStart := false]
  {
    hide Unpack, TestBit, Masked;
    MaskedUpdate(part.blockBitmap.View(), part.blockCnt, lba - part.dataStart, false);
    part.blockBitmap.Set(lba - part.dataStart, 0);
  }
}

/** Pages: frame pools, the virtual-address bitmap and the page table (kernel/memory.c).

    Addresses of whole pages are kept as page and frame numbers, the upper twenty bits of an
    address: that is what a page-table entry is found by and what it holds. */
module Pages {
  import opened Bitmaps
  import opened Util

  const K_HEAP_PAGE := 0xc0100   // K_HEAP_START / PG_SIZE
  const LOWEST_FRAME := 0x102    // below lie the low megabyte, the page directory and the first table
  const MAX_PAGES := 3840

  /** A pool of physical frames. */
  class Pool {
    const poolBitmap: Bitmap
    const firstFrame: nat  // phy_addr_start / PG_SIZE

    ghost predicate Valid() {
      poolBitmap.Valid()
    }

    ghost function Bits(): seq<bool>
      requires Valid()
      reads poolBitmap.bits
    {
      poolBitmap.View()
    }

    constructor (poolBitmap: Bitmap, firstFrame: nat)
      ensures this.poolBitmap == poolBitmap && this.firstFrame == firstFrame
    {
      this.poolBitmap, this.firstFrame := poolBitmap, firstFrame;
    }

    /** palloc: the first free frame. */
    method Palloc(ghost before: seq<bool>, ghost got: seq<int>) returns (frame: nat)
      requires Valid() && FreeCount(Bits()) > 0 && Grew(before, Bits(), firstFrame, got)
      modifies poolBitmap.bits
      ensures firstFrame <= frame && IsFirstFit(old(Bits()), 1, frame - firstFrame)
      ensures frame - firstFrame < |Bits()| && !old(Bits())[frame - firstFrame]
      ensures Bits() == old(Bits())[frame - firstFrame := true]
      ensures Grew(before, Bits(), firstFrame, got + [frame])
    {
      hide Unpack, TestBit, IsFirstFit, Grew, FreeCount;
      ghost var bits := Bits();
      FreeCountPositive(bits);
      var bitIdx := poolBitmap.Scan(1);
      FirstFitOfOne(bits, bitIdx);
      GrewStep(before, bits, firstFrame, got, firstFrame + bitIdx);
      poolBitmap.Set(bitIdx, 1);
      frame := firstFrame + bitIdx;
    }
  }

  /** A part of an address space with its bitmap, page directory and page tables. */
  class Space {
    const vaddrBitmap: Bitmap
    const firstPage: nat     // vaddr_start / PG_SIZE
    var pde: map<nat, nat>   // present directory entries: directory index to the frame of the table
    var pte: map<nat, nat>   // present table entries: page to frame

    ghost predicate Valid() {
      vaddrBitmap.Valid()
    }

    ghost function Bits(): seq<bool>
      requires Valid()
      reads vaddrBitmap.bits
    {
      vaddrBitmap.View()
    }

    /** The bitmap with the bit behind it. */
    ghost function Wide(): (s: seq<bool>)
      requires Valid()
      reads vaddrBitmap.bits
    {
      vaddrBitmap.Wide()
    }

    /** Bitmap, page table and the frame pool the pages come from agree. */
    ghost predicate AgreesWith(pool: Pool)
      requires Valid() && pool.Valid()
      reads this, vaddrBitmap.bits, pool.poolBitmap.bits
    {
      SpaceOk(Bits(), vaddrBitmap.Guard(), firstPage, pte, pool.Bits(), pool.firstFrame)
    }

    /** A space in which the tables `pde` exist, all of them empty. */
    constructor (vaddrBitmap: Bitmap, firstPage: nat, pde: map<nat, nat>)
      ensures this.vaddrBitmap == vaddrBitmap && this.firstPage == firstPage && this.pde == pde && pte == map[]
    {
      this.vaddrBitmap, this.firstPage, this.pde, pte := vaddrBitmap, firstPage, pde, map[];
    }
  }

  /** The directory entry through which a page is reached. */
  function PdeIdx(page: nat): nat {
    page / 1024
  }

  /** The tables for a whole bitmap of `n` pages exist, as the loader provides them for the kernel. */
  ghost predicate TablesPresent(pde: map<nat, nat>, first: nat, n: nat) {
    forall p :: first <= p < first + n ==> PdeIdx(p) in pde
  }

  /** Bitmap, page table and frame pool agree: a page is mapped exactly when its bit is set, no two
      pages share a frame, and every mapped frame is marked used in the pool. */
  ghost predicate PagesOk(v: seq<bool>, first: nat, pte: map<nat, nat>, k: seq<bool>, ks: nat) {
    && (forall i :: 0 <= i < |v| ==> (v[i] <==> first + i in pte))
    && (forall p :: p in pte ==> first <= p < first + |v|)
    && (forall p :: p in pte ==> ks <= pte[p] < ks + |k| && k[pte[p] - ks])
    && (forall p, q :: p in pte && q in pte && p != q ==> pte[p] != pte[q])
  }

  /** The map as the page table has it, with the page behind it that a scan can reach. */
  ghost function Reachable(v: seq<bool>, first: nat, pte: map<nat, nat>): (s: seq<bool>)
    ensures |s| == |v| + 1
  {
    v + [first + |v| in pte]
  }

  /** The agreement for a space that runs of pages are taken from. What lies behind its bitmap is
      arbitrary at first, but the page behind the map is mapped only while the bit for it is set. */
  ghost predicate SpaceOk(v: seq<bool>, guard: bool, first: nat, pte: map<nat, nat>, k: seq<bool>, ks: nat) {
    PagesOk(Reachable(v, first, pte), first, pte, k, ks) && (first + |v| in pte ==> guard)
  }

  // ----- mapping pages

  /** Since `pte0`, pages `start` to `start + |frames|` were mapped to `frames`. */
  ghost predicate Mapping(pte0: map<nat, nat>, pte: map<nat, nat>, start: nat, frames: seq<nat>) {
    && (forall p :: p in pte <==> p in pte0 || start <= p < start + |frames|)
    && (forall p :: p in pte0 ==> p in pte && (!(start <= p < start + |frames|) ==> pte[p] == pte0[p]))
    && forall i :: 0 <= i < |frames| ==> start + i in pte && pte[start + i] == frames[i]
  }

  lemma MappingStep(pte0: map<nat, nat>, pte: map<nat, nat>, start: nat, frames: seq<nat>, frame: nat)
    requires Mapping(pte0, pte, start, frames)
    ensures Mapping(pte0, pte[start + |frames| := frame], start, frames + [frame])
  {
    var pte' := pte[start + |frames| := frame];
    forall p ensures p in pte' <==> p in pte0 || start <= p < start + |frames + [frame]| {}
  }

  /** Mapping free pages to free frames keeps the agreement. */
  lemma MappedOk(v: seq<bool>, first: nat, pte: map<nat, nat>, k: seq<bool>, ks: nat,
                 s: nat, cnt: nat, frames: seq<nat>, pte': map<nat, nat>, k': seq<bool>)
    requires PagesOk(v, first, pte, k, ks) && ClearRun(v, s, cnt) && |frames| == cnt
    requires Mapping(pte, pte', first + s, frames) && Grew(k, k', ks, frames)
    ensures PagesOk(SetRun(v, s, cnt, true), first, pte', k', ks)
  {
    hide FreeCount;
    forall p | p in pte' ensures first <= p < first + |v| && ks <= pte'[p] < ks + |k'| && k'[pte'[p] - ks] {
      if first + s <= p < first + s + cnt {
        assert pte'[first + s + (p - first - s)] == frames[p - first - s];
        assert frames[p - first - s] in frames;
      }
    }
    forall p, q | p in pte' && q in pte' && p != q ensures pte'[p] != pte'[q] {
      MappedApart(v, first, pte, k, ks, s, cnt, frames, pte', k', p, q);
    }
  }

  lemma MappedApart(v: seq<bool>, first: nat, pte: map<nat, nat>, k: seq<bool>, ks: nat,
                    s: nat, cnt: nat, frames: seq<nat>, pte': map<nat, nat>, k': seq<bool>, p: nat, q: nat)
    requires PagesOk(v, first, pte, k, ks) && |frames| == cnt
    requires Mapping(pte, pte', first + s, frames) && Grew(k, k', ks, frames)
    requires p in pte' && q in pte' && p != q
    ensures pte'[p] != pte'[q]
  {
    hide FreeCount;
    var a, b := p - first - s, q - first - s;
    if 0 <= a < cnt { assert pte'[first + s + a] == frames[a] && frames[a] in frames; }
    if 0 <= b < cnt { assert pte'[first + s + b] == frames[b] && frames[b] in frames; }
    if 0 <= a < cnt && 0 <= b < cnt {
      if a < b { assert frames[a] != frames[b]; } else { assert frames[b] != frames[a]; }
    }
  }

  /** Since `pte0`, pages `start` to `start + n` were unmapped, and their frames given back. */
  ghost predicate Unmapping(pte0: map<nat, nat>, pte: map<nat, nat>, k0: seq<bool>, k: seq<bool>, ks: nat, start: nat, n: nat) {
    && |k| == |k0|
    && (forall p :: p in pte <==> p in pte0 && !(start <= p < start + n))
    && (forall p :: p in pte ==> pte[p] == pte0[p])
    && forall i :: 0 <= i < |k| ==> (k[i] <==> k0[i] && !FrameOfSome(pte0, start, n, ks + i))
  }

  /** Frame `f` backs one of the `n` pages from `start` on. */
  ghost predicate FrameOfSome(pte: map<nat, nat>, start: nat, n: nat, f: nat) {
    exists p :: start <= p < start + n && p in pte && pte[p] == f
  }

  lemma UnmappingStep(pte0: map<nat, nat>, pte: map<nat, nat>, k0: seq<bool>, k: seq<bool>, ks: nat, start: nat, n: nat)
    requires Unmapping(pte0, pte, k0, k, ks, start, n) && start + n in pte && ks <= pte[start + n] < ks + |k|
    ensures Unmapping(pte0, pte - {start + n}, k0, k[pte[start + n] - ks := false], ks, start, n + 1)
  {
    var f := pte[start + n];
    assert pte0[start + n] == f;
    forall g: nat ensures FrameOfSome(pte0, start, n + 1, g) <==> FrameOfSome(pte0, start, n, g) || g == f {
      if g == f { assert start <= start + n < start + (n + 1) && pte0[start + n] == f; }
    }
    hide FrameOfSome;
  }

  lemma FramesApart(v: seq<bool>, first: nat, pte: map<nat, nat>, k: seq<bool>, ks: nat, p: nat, start: nat, cnt: nat)
    requires PagesOk(v, first, pte, k, ks) && p in pte && !(start <= p < start + cnt)
    ensures ks <= pte[p] < ks + |k| && k[pte[p] - ks] && !FrameOfSome(pte, start, cnt, pte[p])
  {
  }

  /** A page that stays mapped keeps its frame marked: no unmapped page shared it. */
  lemma StaysMarked(v: seq<bool>, first: nat, pte: map<nat, nat>, k: seq<bool>, ks: nat,
                    start: nat, cnt: nat, pte': map<nat, nat>, k': seq<bool>, p: nat)
    requires PagesOk(v, first, pte, k, ks) && Unmapping(pte, pte', k, k', ks, start, cnt) && p in pte'
    ensures p in pte && pte'[p] == pte[p] && ks <= pte'[p] < ks + |k'| && k'[pte'[p] - ks]
  {
    hide PagesOk, FrameOfSome;
    FramesApart(v, first, pte, k, ks, p, start, cnt);
  }

  /** Unmapping pages and freeing their frames keeps the agreement. */
  lemma UnmappedOk(v: seq<bool>, first: nat, pte: map<nat, nat>, k: seq<bool>, ks: nat,
                   s: nat, cnt: nat, pte': map<nat, nat>, k': seq<bool>)
    requires PagesOk(v, first, pte, k, ks) && s + cnt <= |v| && Unmapping(pte, pte', k, k', ks, first + s, cnt)
    ensures PagesOk(SetRun(v, s, cnt, false), first, pte', k', ks)
  {
    hide Unmapping;
    UnmappedKeys(pte, pte', k, k', ks, first + s, cnt);
    forall p | p in pte' ensures pte'[p] == pte[p] && ks <= pte'[p] < ks + |k'| && k'[pte'[p] - ks] {
      StaysMarked(v, first, pte, k, ks, first + s, cnt, pte', k', p);
    }
  }

  lemma UnmappedKeys(pte: map<nat, nat>, pte': map<nat, nat>, k: seq<bool>, k': seq<bool>, ks: nat, start: nat, cnt: nat)
    requires Unmapping(pte, pte', k, k', ks, start, cnt)
    ensures |k'| == |k| && forall p :: p in pte' <==> p in pte && !(start <= p < start + cnt)
  {
  }

  /** A run that is clear in the bitmap is one of unmapped pages. */
  lemma ClearIsUnmapped(v: seq<bool>, guard: bool, first: nat, pte: map<nat, nat>, k: seq<bool>, ks: nat, s: nat, cnt: nat)
    requires SpaceOk(v, guard, first, pte, k, ks) && ClearRun(v + [guard], s, cnt)
    ensures ClearRun(Reachable(v, first, pte), s, cnt)
    ensures forall p :: first + s <= p < first + s + cnt ==> p !in pte
  {
    var w, r := v + [guard], Reachable(v, first, pte);
    forall i | s <= i < s + cnt ensures !r[i] { assert !w[i]; }
    forall p | first + s <= p < first + s + cnt ensures p !in pte { assert !r[p - first]; }
  }

  /** Mapping a run the scan found keeps the agreement, the page behind the map included. */
  lemma SpaceGrown(v: seq<bool>, guard: bool, first: nat, pte: map<nat, nat>, k: seq<bool>, ks: nat, s: nat, frames: seq<nat>,
                   v': seq<bool>, guard': bool, pte': map<nat, nat>, k': seq<bool>)
    requires SpaceOk(v, guard, first, pte, k, ks) && ClearRun(v + [guard], s, |frames|)
    requires Mapping(pte, pte', first + s, frames) && Grew(k, k', ks, frames)
    requires |v'| == |v| && v' + [guard'] == SetRun(v + [guard], s, |frames|, true)
    ensures SpaceOk(v', guard', first, pte', k', ks)
  {
    hide PagesOk, Grew;
    ClearIsUnmapped(v, guard, first, pte, k, ks, s, |frames|);
    MappedOk(Reachable(v, first, pte), first, pte, k, ks, s, |frames|, frames, pte', k');
    var w' := v' + [guard'];
    assert w'[|v|] == guard';
    assert forall i :: 0 <= i < |v| ==> v'[i] == w'[i] && v[i] == (v + [guard])[i];
    assert Reachable(v', first, pte') == SetRun(Reachable(v, first, pte), s, |frames|, true);
  }

  lemma SpaceShrunk(v: seq<bool>, guard: bool, first: nat, pte: map<nat, nat>, k: seq<bool>, ks: nat, s: nat, cnt: nat,
                    v': seq<bool>, guard': bool, pte': map<nat, nat>, k': seq<bool>)
    requires SpaceOk(v, guard, first, pte, k, ks) && s + cnt <= |v| + 1 && Unmapping(pte, pte', k, k', ks, first + s, cnt)
    requires |v'| == |v| && v' + [guard'] == SetRun(v + [guard], s, cnt, false)
    ensures SpaceOk(v', guard', first, pte', k', ks)
  {
    hide PagesOk, Unmapping;
    UnmappedOk(Reachable(v, first, pte), first, pte, k, ks, s, cnt, pte', k');
    UnmappedKeys(pte, pte', k, k', ks, first + s, cnt);
    var w' := v' + [guard'];
    assert w'[|v|] == guard';
    assert forall i :: 0 <= i < |v| ==> v'[i] == w'[i] && v[i] == (v + [guard])[i];
    assert Reachable(v', first, pte') == SetRun(Reachable(v, first, pte), s, cnt, false);
  }

  /** Freeing an allocation restores bitmap, page table and frame pool. */
  lemma FreeUndoesMalloc(v: seq<bool>, guard: bool, first: nat, pte: map<nat, nat>, k: seq<bool>, ks: nat, s: nat, frames: seq<nat>,
                         pte1: map<nat, nat>, k1: seq<bool>, pte2: map<nat, nat>, k2: seq<bool>)
    requires SpaceOk(v, guard, first, pte, k, ks) && ClearRun(v + [guard], s, |frames|)
    requires Mapping(pte, pte1, first + s, frames) && Grew(k, k1, ks, frames)
    requires Unmapping(pte1, pte2, k1, k2, ks, first + s, |frames|)
    ensures SetRun(SetRun(v + [guard], s, |frames|, true), s, |frames|, false) == v + [guard] && pte2 == pte && k2 == k
  {
    hide FreeCount, Distinct, FrameOfSome, SpaceOk;
    ClearIsUnmapped(v, guard, first, pte, k, ks, s, |frames|);
    forall i | 0 <= i < |k| ensures k2[i] == k[i] {
      MappedFrames(pte, pte1, first + s, frames, ks + i);
    }
    assert k2 == k;
  }

  lemma MappedFrames(pte0: map<nat, nat>, pte: map<nat, nat>, start: nat, frames: seq<nat>, f: nat)
    requires Mapping(pte0, pte, start, frames)
    ensures FrameOfSome(pte, start, |frames|, f) <==> f in frames
  {
    if f in frames {
      var j :| 0 <= j < |frames| && frames[j] == f;
      assert pte[start + j] == f;
    }
    if FrameOfSome(pte, start, |frames|, f) {
      var p :| start <= p < start + |frames| && p in pte && pte[p] == f;
      assert pte[start + (p - start)] == frames[p - start];
    }
  }

  /** What a successful malloc_page has done: `cnt` pages from `page` on, the lowest free run, are
      mapped to the frames `frames`, all of them free before. */
  ghost predicate Granted(v: seq<bool>, first: nat, pte: map<nat, nat>, k: seq<bool>, ks: nat, page: nat, cnt: nat, frames: seq<nat>,
                          v': seq<bool>, pte': map<nat, nat>, k': seq<bool>) {
    && |frames| == cnt && page >= first && IsFirstFit(v, cnt, page - first) && v' == SetRun(v, page - first, cnt, true)
    && Mapping(pte, pte', page, frames) && Grew(k, k', ks, frames)
  }

  lemma FitIsClear(v: seq<bool>, cnt: nat, r: int)
    requires IsFirstFit(v, cnt, r) && r != -1
    ensures r >= 0 && ClearRun(v, r, cnt) && r + cnt <= |v|
  {
  }

  /** Where the run the scan found stands to the map. */
  lemma RunPlace(v: seq<bool>, guard: bool, cnt: nat, r: int)
    requires IsFirstFit(v + [guard], cnt, r) && cnt >= 1 && FreeCount(v) > 0
    ensures LeavesMap(v, guard, cnt) ==> r >= 0 && r + cnt == |v| + 1
    ensures !LeavesMap(v, guard, cnt) ==> IsFirstFit(v, cnt, r)
  {
    FreeCountPositive(v);
    GuardBitDecides(v, guard, cnt, r);
  }

  lemma SameWide(v: seq<bool>, guard: bool, v': seq<bool>, guard': bool)
    requires v + [guard] == v' + [guard'] && |v| == |v'|
    ensures v == v' && guard == guard'
  {
    var w, w' := v + [guard], v' + [guard'];
    assert forall i :: 0 <= i < |v| ==> v[i] == w[i] && v'[i] == w'[i];
    assert w[|v|] == guard && w'[|v'|] == guard';
  }

  lemma MappingStart(pte: map<nat, nat>, start: nat)
    ensures Mapping(pte, pte, start, [])
  {
  }

  lemma StillFree(k: seq<bool>, k': seq<bool>, ks: nat, frames: seq<nat>, cnt: nat)
    requires Grew(k, k', ks, frames) && FreeCount(k) >= cnt > |frames|
    ensures FreeCount(k') > 0
  {
  }

  lemma NotYetMapped(v: seq<bool>, guard: bool, first: nat, pte: map<nat, nat>, k: seq<bool>, ks: nat, s: nat, cnt: nat,
                     pte': map<nat, nat>, frames: seq<nat>)
    requires SpaceOk(v, guard, first, pte, k, ks) && ClearRun(v + [guard], s, cnt)
    requires Mapping(pte, pte', first + s, frames) && |frames| < cnt
    ensures first + s + |frames| !in pte'
  {
    hide SpaceOk;
    ClearIsUnmapped(v, guard, first, pte, k, ks, s, cnt);
  }

  lemma TablePresent(pde: map<nat, nat>, first: nat, n: nat, page: nat)
    requires TablesPresent(pde, first, n) && first <= page < first + n
    ensures PdeIdx(page) in pde
  {
  }

  lemma FrameOf(v: seq<bool>, guard: bool, first: nat, pte: map<nat, nat>, k: seq<bool>, ks: nat, page: nat)
    requires SpaceOk(v, guard, first, pte, k, ks) && page in pte
    ensures ks <= pte[page] < ks + |k| && first <= page <= first + |v|
  {
  }

  lemma UnmappingStart(pte: map<nat, nat>, k: seq<bool>, ks: nat, start: nat)
    ensures Unmapping(pte, pte, k, k, ks, start, 0)
  {
  }

  lemma StillMapped(pte0: map<nat, nat>, pte: map<nat, nat>, k0: seq<bool>, k: seq<bool>, ks: nat, start: nat, n: nat, page: nat)
    requires Unmapping(pte0, pte, k0, k, ks, start, n) && page in pte0 && page >= start + n
    ensures page in pte && pte[page] == pte0[page] && |k| == |k0|
  {
  }

  /** Giving back the frame of a page that is still mapped makes one frame more. */
  lemma OneMoreFree(v: seq<bool>, guard: bool, first: nat, pte: map<nat, nat>, k: seq<bool>, ks: nat,
                    start: nat, n: nat, pte': map<nat, nat>, k': seq<bool>, page: nat)
    requires SpaceOk(v, guard, first, pte, k, ks) && Unmapping(pte, pte', k, k', ks, start, n) && page in pte'
    ensures ks <= pte'[page] < ks + |k'| && FreeCount(k'[pte'[page] - ks := false]) == FreeCount(k') + 1
  {
    hide FreeCount, PagesOk, Unmapping;
    StaysMarked(Reachable(v, first, pte), first, pte, k, ks, start, n, pte', k', page);
    var i := pte'[page] - ks;
    FreeCountTake(k'[i := false], i);
    assert k'[i := false][i := true] == k';
  }

  // ----- the operations

  class Memory {
    const kernelPool: Pool
    const userPool: Pool

    /** The user pool lies above the kernel pool, and both above what the loader mapped. */
    ghost predicate Valid() {
      && kernelPool.Valid() && userPool.Valid() && kernelPool.poolBitmap.bits != userPool.poolBitmap.bits
      && LOWEST_FRAME <= kernelPool.firstFrame && kernelPool.firstFrame + 8 * kernelPool.poolBitmap.len <= userPool.firstFrame
    }

    constructor (kernelPool: Pool, userPool: Pool)
      ensures this.kernelPool == kernelPool && this.userPool == userPool
    {
      this.kernelPool, this.userPool := kernelPool, userPool;
    }

    /** page_table_add. If the table is missing it is made from a kernel frame and cleared. An entry
        that is present already fails an assertion. */
    method PageTableAdd(space: Space, page: nat, frame: nat) returns (ok: bool)
      requires Valid()
      requires PdeIdx(page) !in space.pde ==>
                 FreeCount(kernelPool.Bits()) > 0 && forall p :: p in space.pte ==> PdeIdx(p) != PdeIdx(page)
      modifies space`pde, space`pte, kernelPool.poolBitmap.bits
      ensures ok <==> page !in old(space.pte)
      ensures space.pte == if ok then old(space.pte)[page := frame] else old(space.pte)
      ensures PdeIdx(page) in old(space.pde) ==> space.pde == old(space.pde) && kernelPool.Bits() == old(kernelPool.Bits())
      ensures PdeIdx(page) !in old(space.pde) ==>
                exists f: nat :: Grew(old(kernelPool.Bits()), kernelPool.Bits(), kernelPool.firstFrame, [f]) &&
                            space.pde == old(space.pde)[PdeIdx(page) := f]
    {
      hide Grew, FreeCount, IsFirstFit, Unpack;
      if PdeIdx(page) in space.pde {
        if page in space.pte { return false; }
        space.pte := space.pte[page := frame];
      } else {
        GrewStart(kernelPool.Bits(), kernelPool.firstFrame);
        var pdeFrame := kernelPool.Palloc(kernelPool.Bits(), []);
        assert [] + [pdeFrame] == [pdeFrame];
        space.pde := space.pde[PdeIdx(page) := pdeFrame];
        space.pte := map p | p in space.pte && PdeIdx(p) != PdeIdx(page) :: space.pte[p];
        assert space.pte == old(space.pte);
        space.pte := space.pte[page := frame];
      }
      ok := true;
    }

    /** malloc_page for the kernel: `cnt` pages in a row, backed by any free kernel frames. Page 0
        means that no such row is free. The scan reads, and the marking writes, the bit behind the
        map, so the row can end with the page behind it. */
    method MallocPage(space: Space, cnt: nat) returns (page: nat, ghost frames: seq<nat>)
      requires Valid() && space.Valid() && 0 < cnt < MAX_PAGES && space.firstPage > 0
      requires space.vaddrBitmap.bits != kernelPool.poolBitmap.bits
      requires FreeCount(space.Bits()) > 0 && FreeCount(kernelPool.Bits()) >= cnt
      requires TablesPresent(space.pde, space.firstPage, |space.Bits()| + 1)
      requires space.AgreesWith(kernelPool)
      modifies space`pde, space`pte, space.vaddrBitmap.bits, kernelPool.poolBitmap.bits
      ensures space.pde == old(space.pde) && space.AgreesWith(kernelPool)
      ensures page == 0 ==> IsFirstFit(old(space.Wide()), cnt, -1) && space.Wide() == old(space.Wide()) &&
                            space.pte == old(space.pte) && kernelPool.Bits() == old(kernelPool.Bits())
      ensures page != 0 ==> Granted(old(space.Wide()), space.firstPage, old(space.pte), old(kernelPool.Bits()), kernelPool.firstFrame,
                                    page, cnt, frames, space.Wide(), space.pte, kernelPool.Bits())
      ensures LeavesMap(old(space.Bits()), old(space.vaddrBitmap.Guard()), cnt) ==> page + cnt == space.firstPage + |space.Bits()| + 1
      ensures !LeavesMap(old(space.Bits()), old(space.vaddrBitmap.Guard()), cnt) ==>
                IsFirstFit(old(space.Bits()), cnt, if page == 0 then -1 else page - space.firstPage)
    {
      hide Grew, FreeCount, IsFirstFit, Unpack, PagesOk, Mapping, TestBit, TablesPresent, SpaceOk, LeavesMap;
      ghost var v, g, pte, k, ks := space.Bits(), space.vaddrBitmap.Guard(), space.pte, kernelPool.Bits(), kernelPool.firstFrame;
      frames := [];
      var start := space.vaddrBitmap.Take(cnt);
      RunPlace(v, g, cnt, start);
      if start == -1 {
        SameWide(v, g, space.Bits(), space.vaddrBitmap.Guard());
        return 0, frames;
      }
      FitIsClear(v + [g], cnt, start);
      page := space.firstPage + start;
      MappingStart(pte, page);
      GrewStart(k, ks);
      var i := 0;
      while i < cnt
        invariant i <= cnt && |frames| == i && space.pde == old(space.pde)
        invariant space.Wide() == SetRun(v + [g], start, cnt, true)
        invariant Grew(k, kernelPool.Bits(), ks, frames) && Mapping(pte, space.pte, page, frames)
      {
        StillFree(k, kernelPool.Bits(), ks, frames, cnt);
        var frame := kernelPool.Palloc(k, frames);
        NotYetMapped(v, g, space.firstPage, pte, k, ks, start, cnt, space.pte, frames);
        TablePresent(space.pde, space.firstPage, |v| + 1, page + i);
        MappingStep(pte, space.pte, page, frames, frame);
        var ok := PageTableAdd(space, page + i, frame);
        assert ok;
        frames := frames + [frame];
        i := i + 1;
      }
      SpaceGrown(v, g, space.firstPage, pte, k, ks, start, frames, space.Bits(), space.vaddrBitmap.Guard(), space.pte, kernelPool.Bits());
    }

    /** pfree: the frame's address says which pool it goes back to. */
    method PFree(frame: nat, ghost pool: Pool)
      requires Valid() && (pool == kernelPool || pool == userPool)
      requires pool.firstFrame <= frame < pool.firstFrame + |pool.Bits()|
      modifies pool.poolBitmap.bits
      ensures pool.Bits() == old(pool.Bits())[frame - pool.firstFrame := false]
    {
      hide Unpack, TestBit;
      if frame >= userPool.firstFrame {
        userPool.poolBitmap.Set(frame - userPool.firstFrame, 0);
      } else {
        kernelPool.poolBitmap.Set(frame - kernelPool.firstFrame, 0);
      }
    }

    /** mfree_page: every page's frame goes back to the pool, its entry and its bit are cleared. The
        assertions on the frame addresses cannot fail. */
    method MFreePage(space: Space, page: nat, cnt: nat, ghost pool: Pool)
      requires Valid() && space.Valid() && cnt >= 1 && (pool == kernelPool || pool == userPool)
      requires space.vaddrBitmap.bits != pool.poolBitmap.bits
      requires space.AgreesWith(pool)
      requires forall p :: page <= p < page + cnt ==> p in space.pte
      modifies space`pte, space.vaddrBitmap.bits, pool.poolBitmap.bits
      ensures page >= space.firstPage && space.Wide() == SetRun(old(space.Wide()), page - space.firstPage, cnt, false)
      ensures Unmapping(old(space.pte), space.pte, old(pool.Bits()), pool.Bits(), pool.firstFrame, page, cnt)
      ensures FreeCount(pool.Bits()) == FreeCount(old(pool.Bits())) + cnt
      ensures forall p :: page <= p < page + cnt ==> old(space.pte)[p] >= 0x102
      ensures space.AgreesWith(pool)
    {
      hide Unpack, TestBit, PagesOk, Unmapping, SpaceOk, FreeCount;
      ghost var v, g, first, pte, k, ks := space.Bits(), space.vaddrBitmap.Guard(), space.firstPage, space.pte, pool.Bits(), pool.firstFrame;
      FrameOf(v, g, first, pte, k, ks, page);
      FrameOf(v, g, first, pte, k, ks, page + cnt - 1);
      forall p | page <= p < page + cnt ensures pte[p] >= 0x102 { FrameOf(v, g, first, pte, k, ks, p); }
      UnmappingStart(pte, k, ks, page);
      var pgPhy := space.pte[page];
      assert pgPhy >= 0x102;
      var pageCnt := 0;
      var fromUser := pgPhy >= userPool.firstFrame;
      while pageCnt < cnt
        invariant pageCnt <= cnt && Unmapping(pte, space.pte, k, pool.Bits(), ks, page, pageCnt)
        invariant FreeCount(pool.Bits()) == FreeCount(k) + pageCnt
        invariant space.Bits() == v && space.Wide() == v + [g]
      {
        FrameOf(v, g, first, pte, k, ks, page + pageCnt);
        StillMapped(pte, space.pte, k, pool.Bits(), ks, page, pageCnt, page + pageCnt);
        pgPhy := space.pte[page + pageCnt];
        assert if fromUser then pgPhy >= userPool.firstFrame else kernelPool.firstFrame <= pgPhy < userPool.firstFrame;
        UnmappingStep(pte, space.pte, k, pool.Bits(), ks, page, pageCnt);
        OneMoreFree(v, g, first, pte, k, ks, page, pageCnt, space.pte, pool.Bits(), page + pageCnt);
        PFree(pgPhy, pool);
        space.pte := space.pte - {page + pageCnt};
        pageCnt := pageCnt + 1;
      }
      space.vaddrBitmap.Release(page - space.firstPage, cnt);
      SpaceShrunk(v, g, first, pte, k, ks, page - first, cnt, space.Bits(), space.vaddrBitmap.Guard(), space.pte, pool.Bits());
    }
  }
}

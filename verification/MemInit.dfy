/** The memory pools and the kernel heap at boot (mem_init in kernel/memory.c, over the page tables
    the loader has set up in boot/loader.asm). */
module MemInit {
  import opened Bitmaps
  import opened Pages
  import opened Arenas
  import opened HeapSteps
  import opened Heaps

  const USED_FRAMES := 0x200       // low megabyte, page directory and 255 page tables
  const FIRST_TABLE := 0x101       // the frame of the table for directory entry 768
  const FIRST_KERNEL_PDE := 768
  const LAST_KERNEL_PDE := 1022

  /** The kernel's tables exist before any memory is allocated, and hold nothing above the first
      megabyte. */
  function LoaderTables(): (pde: map<nat, nat>)
    ensures forall d :: FIRST_KERNEL_PDE <= d <= LAST_KERNEL_PDE ==> d in pde
  {
    map d: nat | FIRST_KERNEL_PDE <= d <= LAST_KERNEL_PDE :: TableFrame(d)
  }

  function TableFrame(d: nat): nat
    requires d >= FIRST_KERNEL_PDE
  {
    FIRST_TABLE + d - FIRST_KERNEL_PDE
  }

  /** The page counts are kept in sixteen bits. */
  function FreePages(allMem: nat): (n: nat)
    requires allMem < 0x1_0000_0000
    ensures 0x20_0000 <= allMem < 0x1020_0000 ==> n == allMem / 4096 - 512
    ensures allMem >= 0x1020_0000 ==> n == (allMem / 4096 - 512) % 0x1_0000
    ensures allMem < 0x20_0000 ==> n == 0xfe00 + allMem / 4096  // the subtraction wraps
  {
    (allMem - PG_SIZE * USED_FRAMES) % 0x1_0000_0000 / PG_SIZE % 0x1_0000
  }

  lemma KernelTables(n: nat)
    requires n < 0x8000
    ensures TablesPresent(LoaderTables(), K_HEAP_PAGE, n + 1)
  {
    forall p | K_HEAP_PAGE <= p < K_HEAP_PAGE + n + 1 ensures PdeIdx(p) in LoaderTables() {
      assert FIRST_KERNEL_PDE <= PdeIdx(p) <= LAST_KERNEL_PDE;
    }
  }

  lemma NothingMapped(n: nat, guard: bool, first: nat, k: seq<bool>, ks: nat)
    ensures SpaceOk(seq(n, i => false), guard, first, map[], k, ks)
  {
  }

  /** mem_init. Only the kernel's own maps are cleared: the user pool's map keeps what the memory
      at `userMap` held, and `past` is whatever lies behind the other two. */
  method Init(allMem: nat, userMap: seq<bv8>, past: seq<bv8>) returns (heap: KernelHeap)
    requires allMem < 0x1_0000_0000 && |past| == 2
    requires |userMap| == (FreePages(allMem) - FreePages(allMem) / 2) / 8 + 1
    ensures fresh(heap) && fresh(heap.space) && fresh(heap.space.vaddrBitmap.bits) && fresh(heap.mem.kernelPool.poolBitmap.bits)
    ensures heap.Valid() && heap.live == map[] && heap.arenas == map[] && heap.others == {} && heap.space.pte == map[]
    ensures var n := 8 * (FreePages(allMem) / 2 / 8);
            heap.space.Bits() == seq(n, i => false) && heap.mem.kernelPool.Bits() == seq(n, i => false)
    ensures heap.poolSize == FreePages(allMem) / 2 * 4096 && heap.space.firstPage == 0xc0100
    ensures heap.mem.kernelPool.firstFrame == 0x200 && heap.mem.userPool.firstFrame == 0x200 + FreePages(allMem) / 2
    ensures forall d :: d in heap.space.pde <==> 768 <= d <= 1022
    ensures forall d :: d in heap.space.pde ==> 0x100 < heap.space.pde[d] == 0x101 + d - 768 < heap.mem.kernelPool.firstFrame
    ensures heap.mem.kernelPool.firstFrame + |heap.mem.kernelPool.Bits()| <= heap.mem.userPool.firstFrame
    ensures allMem >= 0x20_0000 ==> heap.mem.userPool.firstFrame + |heap.mem.userPool.Bits()| <= allMem / 4096
    ensures heap.mem.userPool.Valid() && heap.mem.userPool.Bits() == Unpack(userMap[..|userMap| - 1])
    ensures heap.space.vaddrBitmap.Guard() == TestBit(past[1], 0)
  {
    hide HeapOk, Unpack, TestBit, PagesOk;
    var allFreePages := FreePages(allMem);
    var kernelFreePages := allFreePages / 2;
    var kbmLength := kernelFreePages / 8;
    var kernelMap := new Bitmap(kbmLength, past[0]);
    var userBitmap := new Bitmap.Over(userMap);
    var vaddrMap := new Bitmap(kbmLength, past[1]);
    var kernelPool := new Pool(kernelMap, USED_FRAMES);
    var userPool := new Pool(userBitmap, USED_FRAMES + kernelFreePages);
    var mem := new Memory(kernelPool, userPool);
    var space := new Space(vaddrMap, K_HEAP_PAGE, LoaderTables());
    KernelTables(8 * kbmLength);
    NothingMapped(8 * kbmLength, vaddrMap.Guard(), K_HEAP_PAGE, kernelPool.Bits(), USED_FRAMES);
    heap := new KernelHeap(mem, space, kernelFreePages * PG_SIZE);
  }

  // ----- a run that leaves the map

  /** A map of `n` pages of which the first `m` are in use, and the clear bit behind it. */
  ghost function Filled(n: nat, m: nat): seq<bool> {
    seq(n + 1, i => i < m)
  }

  lemma NextFree(n: nat, m: nat, cnt: nat, r: int)
    requires cnt >= 1 && m + cnt <= n && IsFirstFit(Filled(n, m), cnt, r)
    ensures r == m && SetRun(Filled(n, m), m, cnt, true) == Filled(n, m + cnt)
  {
    var w := Filled(n, m);
    assert ClearRun(w, m, cnt);
    assert !w[r];
  }

  function Sum(s: seq<nat>): nat {
    if s == [] then 0 else Sum(s[..|s| - 1]) + s[|s| - 1]
  }

  lemma {:induction false} SumUpTo(s: seq<nat>, i: nat)
    requires i < |s|
    ensures Sum(s[..i + 1]) == Sum(s[..i]) + s[i] && Sum(s[..i + 1]) <= Sum(s)
    decreases |s| - i
  {
    assert s[..i + 1][..i] == s[..i];
    if i + 1 < |s| { SumUpTo(s, i + 1); } else { assert s[..i + 1] == s; }
  }

  /** All pages are in use but the last and, at some distance, one more. */
  ghost function Gap(n: nat): seq<bool> {
    seq(n + 1, i => i < n - 1 && i != n - 3)
  }

  lemma GapIs(n: nat)
    requires n >= 4
    ensures SetRun(Filled(n, n - 1), n - 3, 1, false) == Gap(n)
  {
  }

  lemma GapLeaves(v: seq<bool>, guard: bool)
    requires |v| >= 4 && v + [guard] == Gap(|v|)
    ensures LeavesMap(v, guard, 2) && FreeCount(v) > 0 && !IsFirstFit(v + [guard], 2, -1)
  {
    hide FreeCount;
    var n := |v|;
    var w := v + [guard];
    assert w[n] == guard && w[n - 1] == v[n - 1] && forall i :: 0 <= i < n ==> w[i] == v[i];
    FreeCountPositive(v);
    assert ClearRun(w, n - 1, 2) && ClearRun(v, n - 1, 1);
    forall q ensures !ClearRun(v, q, 2) {
      if 0 <= q && q + 2 <= n {
        assert v[q] || v[q + 1];
      }
    }
  }

  lemma SomeFree(v: seq<bool>, guard: bool, m: nat)
    requires v + [guard] == Filled(|v|, m) && m < |v|
    ensures FreeCount(v) > 0
  {
    hide FreeCount;
    assert (v + [guard])[m] == v[m];
    FreeCountPositive(v);
  }

  lemma {:induction false} AllFree(n: nat)
    ensures FreeCount(seq(n, i => false)) == n
  {
    var s := seq(n, i => false);
    if n > 0 {
      assert s[..n - 1] == seq(n - 1, i => false);
      AllFree(n - 1);
    }
  }

  /** Pages are taken by requests of these sizes, for threads, their maps and page directories, until
      one is left. */
  method TakeAllButLast(heap: KernelHeap, n: nat, sizes: seq<nat>)
    requires heap.Valid() && n == |heap.space.Bits()| >= 1
    requires Sum(sizes) == n - 1 && forall i :: 0 <= i < |sizes| ==> 1 <= sizes[i] < MAX_PAGES
    requires heap.space.Wide() == Filled(n, 0) && FreeCount(heap.mem.kernelPool.Bits()) == n
    modifies heap, heap.space, heap.space.vaddrBitmap.bits, heap.mem.kernelPool.poolBitmap.bits
    ensures heap.Valid() && heap.live == old(heap.live)
    ensures heap.space.Wide() == Filled(n, n - 1) && FreeCount(heap.mem.kernelPool.Bits()) == 1
    ensures forall p :: heap.space.firstPage <= p < heap.space.firstPage + n - 1 ==> p in heap.others
  {
    hide HeapOk, SpaceOk, TablesPresent, Unpack, FreeCount, IsFirstFit, TestBit, SetRun, Filled, Sum;
    var i := 0;
    ghost var m := 0;
    SumStarts(sizes);
    while i < |sizes|
      invariant i <= |sizes| && m == Sum(sizes[..i]) <= n - 1 && heap.Valid() && heap.live == old(heap.live)
      invariant heap.space.Wide() == Filled(n, m) && FreeCount(heap.mem.kernelPool.Bits()) == n - m
      invariant forall p :: heap.space.firstPage <= p < heap.space.firstPage + m ==> p in heap.others
    {
      SumUpTo(sizes, i);
      SomeFree(heap.space.Bits(), heap.space.vaddrBitmap.Guard(), m);
      var r := heap.GetKernelPages(sizes[i]);
      NextFree(n, m, sizes[i], if r.Ptr? then ArenaOf(r.addr) - heap.space.firstPage else -1);
      m := m + sizes[i];
      i := i + 1;
    }
    assert sizes[..i] == sizes;
  }

  lemma SumStarts(s: seq<nat>)
    ensures Sum(s[..0]) == 0
  {
  }

  /** The kernel can come to a run that leaves its map, whatever memory it has and in whatever sizes
      pages are asked for: with a clear bit behind the map, when all pages but the last are in use,
      one is given back, and an allocation needs two. */
  method LeaveTheMap(allMem: nat, userMap: seq<bv8>, past: seq<bv8>, sizes: seq<nat>) returns (heap: KernelHeap, r: MallocResult)
    requires allMem < 0x1_0000_0000 && |past| == 2 && FreePages(allMem) / 2 >= 8
    requires |userMap| == (FreePages(allMem) - FreePages(allMem) / 2) / 8 + 1
    requires !TestBit(past[1], 0)
    requires Sum(sizes) == 8 * (FreePages(allMem) / 2 / 8) - 1 && forall i :: 0 <= i < |sizes| ==> 1 <= sizes[i] < MAX_PAGES
    ensures heap.Valid() && r.Ptr? && heap.live == map[r.addr := 5000] && heap.Leaves(r.addr)
  {
    hide HeapOk, SpaceOk, TablesPresent, Unpack, FreeCount, IsFirstFit, TestBit, LeavesMap, SetRun, Filled, Gap, Sum;
    heap := Init(allMem, userMap, past);
    var n := 8 * (FreePages(allMem) / 2 / 8);
    AllFree(n);
    NothingFilled(heap.space.Bits(), heap.space.vaddrBitmap.Guard());
    TakeAllButLast(heap, n, sizes);
    OnePage(heap.space.firstPage + n - 3, heap.others);
    heap.FreeKernelPages(heap.space.firstPage + n - 3, 1);
    GapIs(n);
    GapLeaves(heap.space.Bits(), heap.space.vaddrBitmap.Guard());
    r := heap.SysMalloc(5000);
  }

  lemma NothingFilled(v: seq<bool>, guard: bool)
    requires v == seq(|v|, i => false) && !guard
    ensures v + [guard] == Filled(|v|, 0)
  {
  }

  lemma OnePage(p: nat, s: set<nat>)
    requires p in s
    ensures PageRange(p, 1) <= s
  {
  }
}

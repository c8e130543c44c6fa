/** sys_malloc and sys_free on the kernel heap, over the page layer (kernel/memory.c). */
module Heaps {
  import opened Util
  import opened Bitmaps
  import opened Pages
  import opened Arenas
  import opened HeapSteps

  /** The assertion on the page count in malloc_page can fail for the largest sizes. */
  datatype MallocResult = Panic | Null | Ptr(addr: nat)

  function PagesNeeded(size: nat): nat {
    if size > 1024 then (size + HEADER + PG_SIZE - 1) / PG_SIZE else 1
  }

  /** The fewest pages that hold the header and the bytes asked for. */
  lemma LeastPages(size: nat)
    ensures size <= 1024 ==> PagesNeeded(size) == 1
    ensures size > 1024 ==> 4096 * (PagesNeeded(size) - 1) < size + 12 <= 4096 * PagesNeeded(size)
    ensures PagesNeeded(size) >= MAX_PAGES <==> size + 12 > 4096 * 3839
  {
  }

  /** The arena a request is served from: whole pages, or blocks of the smallest size that fits. */
  predicate RightArena(size: nat, a: Arena) {
    match a
    case Large(pages) => size > 1024 && pages == PagesNeeded(size)
    case Small(d, _) => d < DESC_CNT && size <= BlockSize(d) && (d > 0 ==> size > BlockSize(d - 1))
  }

  /** The request has been served from the front of list `d`. */
  ghost predicate FromList(h: Heap, h': Heap, d: nat, b: nat) {
    && d < |h.lists| && h.lists[d] != [] && b == h.lists[d][0] && h'.lists == h.lists[d := h.lists[d][1..]]
    && ArenaOf(b) in h.arenas && h.arenas[ArenaOf(b)].Small? && h.arenas[ArenaOf(b)].cnt > 0
    && h'.arenas == h.arenas[ArenaOf(b) := Small(h.arenas[ArenaOf(b)].desc, h.arenas[ArenaOf(b)].cnt - 1)]
  }

  /** The request has been served with the first block of a new arena; the others are on list `d`,
      which was empty, in the order of their addresses. */
  ghost predicate FromNewArena(h: Heap, h': Heap, d: nat, b: nat) {
    && d < |h.lists| && h.lists[d] == [] && d < |h'.lists| && h'.lists == h.lists[d := h'.lists[d]]
    && d < DESC_CNT && b == 4096 * ArenaOf(b) + 12 && h'.arenas == h.arenas[ArenaOf(b) := Small(d, PerArena(d) - 1)]
    && |h'.lists[d]| == PerArena(d) - 1 && forall i :: 0 <= i < |h'.lists[d]| ==> h'.lists[d][i] == b + (i + 1) * BlockSize(d)
  }

  lemma CutBlocks(h: Heap, p: nat, d: nat, size: nat)
    requires |h.lists| == DESC_CNT && d < DESC_CNT && h.lists[d] == []
    ensures var h1 := FreshSmall(h, p, d);
            h1.lists[d] != [] && FromNewArena(h, Taken(h1, d, size), d, h1.lists[d][0]) && ArenaOf(h1.lists[d][0]) == p
  {
    FreshCount(h, p, d);
    var h1 := FreshSmall(h, p, d);
    var h' := Taken(h1, d, size);
    assert h'.lists == h.lists[d := h'.lists[d]];
    assert h'.arenas == h.arenas[p := Small(d, PerArena(d) - 1)];
    forall i | 0 <= i < |h'.lists[d]| ensures h'.lists[d][i] == BlockAddr(p, d, i + 1) {
      assert h'.lists[d][i] == AllBlocks(p, d)[i + 1];
    }
  }

  lemma ListTaken(h: Heap, mapped: set<nat>, d: nat, size: nat)
    requires HeapOk(h, mapped) && d < DESC_CNT && |h.lists| == DESC_CNT && h.lists[d] != [] && 0 < size <= BlockSize(d)
    ensures FromList(h, Taken(h, d, size), d, h.lists[d][0]) && h.arenas[ArenaOf(h.lists[d][0])].desc == d
  {
    hide HeapOk, BlockSize, PerArena, ArenaOf, PagesCovered, BlockAddr;
    TakeKeeps(h, mapped, d, size);
    HeapLists(h, mapped);
    assert h.lists[d][0] in h.lists[d];
    assert ListedOk(h.lists[d][0], d, h.arenas);
  }

  class KernelHeap {
    const mem: Memory
    const space: Space
    const poolSize: nat          // kernel_pool.pool_size
    var arenas: map<nat, Arena>  // the headers in the heap's pages
    var freeLists: seq<seq<nat>>
    ghost var live: map<nat, nat>
    ghost var others: set<nat>

    ghost function View(): Heap
      reads this
    {
      Heap(arenas, freeLists, live, others)
    }

    /** The page layer agrees with itself. */
    ghost predicate PagesValid()
      reads space, space.vaddrBitmap.bits, mem.kernelPool.poolBitmap.bits
    {
      && mem.Valid() && space.Valid() && space.firstPage == K_HEAP_PAGE
      && space.vaddrBitmap.bits != mem.kernelPool.poolBitmap.bits
      && TablesPresent(space.pde, space.firstPage, |space.Bits()| + 1)
      && space.AgreesWith(mem.kernelPool)
    }

    ghost predicate Valid()
      reads this, space, space.vaddrBitmap.bits, mem.kernelPool.poolBitmap.bits
    {
      PagesValid() && HeapOk(View(), space.pte.Keys)
    }

    /** An empty heap; whatever is mapped so far belongs to others. */
    constructor (mem: Memory, space: Space, poolSize: nat)
      ensures this.mem == mem && this.space == space && this.poolSize == poolSize
      ensures arenas == map[] && live == map[] && others == space.pte.Keys && HeapOk(View(), space.pte.Keys)
    {
      this.mem, this.space, this.poolSize := mem, space, poolSize;
      arenas, live, others := map[], map[], space.pte.Keys;
      freeLists := [[], [], [], [], [], [], []];
    }

    /** The page run of the allocation at `addr` leaves the heap's bitmap. */
    ghost predicate Leaves(addr: nat)
      requires space.Valid()
      reads this, space.vaddrBitmap.bits
    {
      ArenaOf(addr) in arenas && ArenaOf(addr) + PageCount(arenas[ArenaOf(addr)]) > space.firstPage + |space.Bits()|
    }

    /** A scan for so many pages, made now, would report a run that leaves the bitmap. */
    ghost predicate ScanLeaves(cnt: nat)
      requires space.Valid()
      reads space.vaddrBitmap.bits
    {
      LeavesMap(space.Bits(), space.vaddrBitmap.Guard(), cnt)
    }

    /** The lowest free run of so many pages has been taken, and starts at `page`. */
    ghost predicate RunTaken(before: seq<bool>, page: nat, cnt: nat)
      requires space.Valid()
      reads space.vaddrBitmap.bits
    {
      page >= space.firstPage && IsFirstFit(before, cnt, page - space.firstPage) &&
      space.Wide() == SetRun(before, page - space.firstPage, cnt, true)
    }

    /** The first size class that is large enough. */
    method ChooseDesc(size: nat) returns (descIdx: nat)
      requires 0 < size <= 1024
      ensures descIdx < DESC_CNT && size <= BlockSize(descIdx) && (descIdx > 0 ==> size > BlockSize(descIdx - 1))
    {
      descIdx := 0;
      while descIdx < DESC_CNT
        invariant descIdx <= DESC_CNT && (descIdx > 0 ==> size > BlockSize(descIdx - 1))
      {
        if size <= BlockSize(descIdx) {
          return;
        }
        descIdx := descIdx + 1;
      }
    }

    /** Puts all blocks of the arena at page `p` on its free list. */
    method FillFreeList(p: nat, d: nat)
      requires d < DESC_CNT && |freeLists| == DESC_CNT && freeLists[d] == []
      modifies this`freeLists
      ensures freeLists == old(freeLists)[d := AllBlocks(p, d)]
    {
      hide BlockSize, PerArena, BlockAddr;
      AllBlocksAre(p, d);
      ghost var all := AllBlocks(p, d);
      var blockIdx := 0;
      assert freeLists == old(freeLists)[d := all[..0]];
      while blockIdx < PerArena(d)
        invariant blockIdx <= PerArena(d) && freeLists == old(freeLists)[d := all[..blockIdx]]
      {
        var b := BlockAddr(p, d, blockIdx);
        NotAmongFirst(all, blockIdx);
        assert b !in freeLists[d];
        freeLists := freeLists[d := freeLists[d] + [b]];
        assert all[..blockIdx] + [b] == all[..blockIdx + 1];
        blockIdx := blockIdx + 1;
      }
      assert all[..blockIdx] == all;
    }

    /** A large allocation: whole pages with a header in front. */
    method MallocLarge(size: nat) returns (r: MallocResult)
      requires Valid() && 1024 < size && PagesNeeded(size) < MAX_PAGES
      requires FreeCount(space.Bits()) > 0 && FreeCount(mem.kernelPool.Bits()) >= PagesNeeded(size)
      modifies this, space, space.vaddrBitmap.bits, mem.kernelPool.poolBitmap.bits
      ensures Valid() && others == old(others) && !r.Panic?
      ensures r.Null? ==> View() == old(View()) && space.pte == old(space.pte) && IsFirstFit(old(space.Wide()), PagesNeeded(size), -1)
      ensures r.Ptr? ==> r.addr !in old(live) && live == old(live)[r.addr := size]
      ensures r.Ptr? ==> ArenaOf(r.addr) in arenas && RightArena(size, arenas[ArenaOf(r.addr)])
      ensures r.Ptr? ==> (Leaves(r.addr) <==> old(ScanLeaves(PagesNeeded(size))))
      ensures r.Ptr? ==> r.addr == 4096 * ArenaOf(r.addr) + 12 && RunTaken(old(space.Wide()), ArenaOf(r.addr), PagesNeeded(size)) &&
                         arenas == old(arenas)[ArenaOf(r.addr) := Large(PagesNeeded(size))] && freeLists == old(freeLists)
    {
      hide HeapOk, SpaceOk, TablesPresent, Unpack, FreeCount, IsFirstFit, TestBit, Granted, LeavesMap;
      ghost var h, mapped, v, g, pte, k := View(), space.pte.Keys, space.Bits(), space.vaddrBitmap.Guard(), space.pte, mem.kernelPool.Bits();
      var pageCnt := PagesNeeded(size);
      var page, frames := mem.MallocPage(space, pageCnt);
      if page == 0 {
        return Null;
      }
      GrantedPages(v, g, space.firstPage, pte, k, mem.kernelPool.firstFrame, page, pageCnt, frames, space.Wide(), space.pte, mem.kernelPool.Bits());
      GrantedFrames(v + [g], space.firstPage, pte, k, mem.kernelPool.firstFrame, page, pageCnt, frames,
                    space.Wide(), space.pte, mem.kernelPool.Bits());
      GrantedInside(v, pageCnt, page - space.firstPage);
      NewLargeKeeps(h, mapped, page, pageCnt, size);
      arenas := arenas[page := Large(pageCnt)];
      r := Ptr(PG_SIZE * page + HEADER);
      live := live[r.addr := size];
      assert View() == NewLarge(h, page, pageCnt, size);
    }

    /** A new small arena, all of whose blocks go on the empty free list. */
    method NewArena(d: nat) returns (page: nat)
      requires Valid() && d < DESC_CNT && freeLists[d] == []
      requires FreeCount(space.Bits()) > 0 && FreeCount(mem.kernelPool.Bits()) >= 1
      modifies this, space, space.vaddrBitmap.bits, mem.kernelPool.poolBitmap.bits
      ensures PagesValid()
      ensures page == 0 ==> View() == old(View()) && space.pte == old(space.pte) && IsFirstFit(old(space.Wide()), 1, -1)
      ensures page != 0 ==> View() == FreshSmall(old(View()), page, d) && page !in old(space.pte) &&
                            space.pte.Keys == old(space.pte.Keys) + PageRange(page, 1)
      ensures page != 0 ==> RunTaken(old(space.Wide()), page, 1)
    {
      hide HeapOk, SpaceOk, TablesPresent, Unpack, FreeCount, IsFirstFit, TestBit, Granted, AllBlocks, PerArena, PagesCovered, ListedOk;
      HeapLists(View(), space.pte.Keys);
      ghost var h, v, g, pte, k := View(), space.Bits(), space.vaddrBitmap.Guard(), space.pte, mem.kernelPool.Bits();
      ghost var frames;
      page, frames := mem.MallocPage(space, 1);
      if page == 0 {
        return;
      }
      GrantedPages(v, g, space.firstPage, pte, k, mem.kernelPool.firstFrame, page, 1, frames, space.Wide(), space.pte, mem.kernelPool.Bits());
      GrantedFrames(v + [g], space.firstPage, pte, k, mem.kernelPool.firstFrame, page, 1, frames, space.Wide(), space.pte, mem.kernelPool.Bits());
      arenas := arenas[page := Small(d, PerArena(d))];
      FillFreeList(page, d);
      assert View() == FreshSmall(h, page, d);
    }

    /** A block of the list's first arena, which thereby has one free block fewer. */
    method PopBlock(d: nat, size: nat) returns (b: nat)
      requires |freeLists| == DESC_CNT && d < DESC_CNT && freeLists[d] != []
      requires var p := ArenaOf(freeLists[d][0]); p in arenas && arenas[p].Small? && arenas[p].cnt > 0
      modifies this
      ensures View() == Taken(old(View()), d, size) && b == old(freeLists)[d][0]
    {
      b := freeLists[d][0];
      freeLists := freeLists[d := freeLists[d][1..]];
      var a := ArenaOf(b);
      arenas := arenas[a := Small(arenas[a].desc, arenas[a].cnt - 1)];
      live := live[b := size];
    }

    method MallocSmall(size: nat) returns (r: MallocResult)
      requires Valid() && 0 < size <= 1024
      requires FreeCount(space.Bits()) > 0 && FreeCount(mem.kernelPool.Bits()) >= 1
      modifies this, space, space.vaddrBitmap.bits, mem.kernelPool.poolBitmap.bits
      ensures Valid() && others == old(others) && !r.Panic?
      ensures r.Null? ==> View() == old(View()) && space.pte == old(space.pte) && IsFirstFit(old(space.Wide()), 1, -1)
      ensures r.Ptr? ==> r.addr !in old(live) && live == old(live)[r.addr := size]
      ensures r.Ptr? ==> ArenaOf(r.addr) in arenas && RightArena(size, arenas[ArenaOf(r.addr)])
      ensures r.Ptr? ==> arenas[ArenaOf(r.addr)].Small? && |old(freeLists)| == DESC_CNT &&
                         var d := arenas[ArenaOf(r.addr)].desc;
                         d < DESC_CNT && if old(freeLists)[d] != [] then FromList(old(View()), View(), d, r.addr) && space.Wide() == old(space.Wide())
                         else FromNewArena(old(View()), View(), d, r.addr) && RunTaken(old(space.Wide()), ArenaOf(r.addr), 1)
    {
      hide HeapOk, SpaceOk, TablesPresent, Unpack, FreeCount, IsFirstFit, TestBit, BlockSize, PerArena, PagesCovered, ListedOk, ArenaOf, BlockAddr,
        FromList, FromNewArena;
      ghost var h, mapped := View(), space.pte.Keys;
      HeapLists(h, mapped);
      var descIdx := ChooseDesc(size);
      if freeLists[descIdx] == [] {
        var page := NewArena(descIdx);
        if page == 0 {
          return Null;
        }
        NewSmallKeeps(h, mapped, page, descIdx, size);
        FreshCount(h, page, descIdx);
        CutBlocks(h, page, descIdx, size);
      } else {
        TakeKeeps(h, mapped, descIdx, size);
        ListTaken(h, mapped, descIdx, size);
      }
      var b := PopBlock(descIdx, size);
      r := Ptr(b);
    }

    /** sys_malloc of a kernel thread. */
    method SysMalloc(size: nat) returns (r: MallocResult)
      requires Valid()
      requires 0 < size < poolSize && PagesNeeded(size) < MAX_PAGES ==>
                 FreeCount(space.Bits()) > 0 && FreeCount(mem.kernelPool.Bits()) >= PagesNeeded(size)
      modifies this, space, space.vaddrBitmap.bits, mem.kernelPool.poolBitmap.bits
      ensures Valid() && others == old(others)
      ensures r.Panic? <==> 0 < size < poolSize && size + 12 > 4096 * 3839
      ensures !(0 < size < poolSize) ==> r.Null?
      ensures r.Null? && 0 < size < poolSize ==> IsFirstFit(old(space.Wide()), PagesNeeded(size), -1)
      ensures r.Ptr? && size > 1024 ==>
                && ArenaOf(r.addr) in arenas && arenas[ArenaOf(r.addr)].Large? && freeLists == old(freeLists)
                && var n := arenas[ArenaOf(r.addr)].pages;
                   4096 * (n - 1) < size + 12 <= 4096 * n && RunTaken(old(space.Wide()), ArenaOf(r.addr), n) &&
                   r.addr == 4096 * ArenaOf(r.addr) + 12 && arenas == old(arenas)[ArenaOf(r.addr) := Large(n)]
      ensures r.Ptr? && size <= 1024 ==>
                && ArenaOf(r.addr) in arenas && arenas[ArenaOf(r.addr)].Small? && |old(freeLists)| == DESC_CNT
                && var d := arenas[ArenaOf(r.addr)].desc;
                   d < DESC_CNT && if old(freeLists)[d] != [] then FromList(old(View()), View(), d, r.addr) && space.Wide() == old(space.Wide())
                   else FromNewArena(old(View()), View(), d, r.addr) && RunTaken(old(space.Wide()), ArenaOf(r.addr), 1)
      ensures !r.Ptr? ==> View() == old(View()) && space.pte == old(space.pte)
      ensures r.Ptr? ==> r.addr !in old(live) && live == old(live)[r.addr := size]
      ensures r.Ptr? ==> ArenaOf(r.addr) in arenas && RightArena(size, arenas[ArenaOf(r.addr)])
      ensures r.Ptr? && size > 1024 ==> (Leaves(r.addr) <==> old(ScanLeaves(PagesNeeded(size))))
    {
      hide HeapOk, SpaceOk, TablesPresent, IsFirstFit, FreeCount, Unpack, LeavesMap, TestBit, FromList, FromNewArena, PagesNeeded,
        KernelHeap.RunTaken, BlockSize;
      LeastPages(size);
      if !(size > 0 && size < poolSize) {
        return Null;
      }
      if size > 1024 {
        var pageCnt := PagesNeeded(size);
        if !(pageCnt > 0 && pageCnt < MAX_PAGES) {
          return Panic;
        }
        r := MallocLarge(size);
      } else {
        r := MallocSmall(size);
      }
    }

    // ----- sys_free

    /** Takes every block of a wholly free arena off the list; each is found there. */
    method DrainFreeList(p: nat, d: nat)
      requires |freeLists| == DESC_CNT && d < DESC_CNT && Distinct(freeLists[d])
      requires forall x :: IsBlock(x, p, d) ==> x in freeLists[d]
      modifies this`freeLists
      ensures |freeLists| == DESC_CNT && freeLists == old(freeLists)[d := freeLists[d]] && Distinct(freeLists[d])
      ensures forall x :: x in freeLists[d] <==> x in old(freeLists)[d] && !IsBlock(x, p, d)
      ensures InOrder(old(freeLists)[d], freeLists[d])
    {
      hide BlockSize, PerArena, BlockAddr, Distinct, Before;
      ghost var list0 := freeLists[d];
      var blockIdx := 0;
      DrainStart(list0, p, d);
      while blockIdx < PerArena(d)
        invariant blockIdx <= PerArena(d) && |freeLists| == DESC_CNT && freeLists == old(freeLists)[d := freeLists[d]]
        invariant Drained(list0, freeLists[d], p, d, blockIdx) && InOrder(list0, freeLists[d])
      {
        var b := BlockAddr(p, d, blockIdx);
        DrainStep(list0, freeLists[d], p, d, blockIdx);
        assert b in freeLists[d];
        RemoveElemKeepsOrder(freeLists[d], b);
        freeLists := freeLists[d := RemoveElem(freeLists[d], b)];
        blockIdx := blockIdx + 1;
      }
      DrainEnd(list0, freeLists[d], p, d);
    }

    /** Frees a live allocation: pages go back at once, a block goes to its list, and an arena none
        of whose blocks is in use any more goes back as a whole. No assertion fails. */
    method SysFree(ptr: nat)
      requires Valid() && ptr in live
      modifies this, space, space.vaddrBitmap.bits, mem.kernelPool.poolBitmap.bits
      ensures Valid() && live == old(live) - {ptr} && others == old(others)
      ensures var a := old(arenas)[ArenaOf(ptr)];
              if a.Small? && a.desc < DESC_CNT && a.cnt + 1 < PerArena(a.desc) then
                && |old(freeLists)| == DESC_CNT && freeLists == old(freeLists)[a.desc := old(freeLists)[a.desc] + [ptr]]
                && arenas == old(arenas)[ArenaOf(ptr) := Small(a.desc, a.cnt + 1)] && space.pte == old(space.pte)
              else arenas == old(arenas) - {ArenaOf(ptr)} && space.pte.Keys == old(space.pte.Keys) - PageRange(ArenaOf(ptr), PageCount(a))
      ensures var a := old(arenas)[ArenaOf(ptr)];
              if a.Large? then freeLists == old(freeLists)
              else a.desc < |old(freeLists)| && a.desc < |freeLists| && freeLists == old(freeLists)[a.desc := freeLists[a.desc]] &&
                   InOrder(old(freeLists)[a.desc] + [ptr], freeLists[a.desc])
    {
      hide HeapOk, SpaceOk, TablesPresent, Unpack, FreeCount, TestBit, BlockSize, PerArena, BlockAddr, Unmapping, Distinct,
        IsBlock, SetRun, PagesCovered, Before;
      ghost var h, mapped := View(), space.pte.Keys;
      var a := ArenaOf(ptr);
      HeapLive(h, mapped, ptr);
      MappedFrom(space.Bits(), space.vaddrBitmap.Guard(), space.firstPage, space.pte, mem.kernelPool.Bits(), mem.kernelPool.firstFrame);
      InHeap(h, mapped, space.firstPage, |space.Bits()| + 1, ptr);
      assert ptr >= PG_SIZE * K_HEAP_PAGE;
      if arenas[a].Large? {
        FreeLargeKeeps(h, mapped, ptr);
        ReleasePages(a, arenas[a].pages);
        arenas := arenas - {a};
        live := live - {ptr};
      } else {
        SmallLive(h, mapped, ptr);
        var d := arenas[a].desc;
        freeLists := freeLists[d := freeLists[d] + [ptr]];
        if arenas[a].cnt + 1 == PerArena(d) {
          WhollyFree(h, mapped, ptr);
          ghost var list := freeLists[d];
          DrainFreeList(a, d);
          DrainedList(h, mapped, list, freeLists[d], a, d, ptr);
          GiveLastKeeps(h, mapped, ptr, freeLists[d]);
          ReleasePages(a, 1);
          arenas := arenas - {a};
          live := live - {ptr};
          assert freeLists == h.lists[d := freeLists[d]];
        } else {
          CountBelow(h, mapped, ptr);
          GiveKeeps(h, mapped, ptr);
          arenas := arenas[a := Small(d, arenas[a].cnt + 1)];
          live := live - {ptr};
        }
      }
    }

    /** mfree_page of an arena's own pages. */
    method ReleasePages(a: nat, n: nat)
      requires PagesValid() && n >= 1 && forall x :: a <= x < a + n ==> x in space.pte
      modifies space, space.vaddrBitmap.bits, mem.kernelPool.poolBitmap.bits
      ensures PagesValid() && space.pte.Keys == old(space.pte.Keys) - PageRange(a, n)
      ensures a >= space.firstPage && space.Wide() == SetRun(old(space.Wide()), a - space.firstPage, n, false)
      ensures FreeCount(mem.kernelPool.Bits()) == FreeCount(old(mem.kernelPool.Bits())) + n
    {
      hide SpaceOk, TablesPresent, Unpack, FreeCount, TestBit;
      mem.MFreePage(space, a, n, mem.kernelPool);
    }

    // ----- pages for others

    /** get_kernel_pages, for thread blocks, page directories, bitmaps and pipes. */
    method GetKernelPages(cnt: nat) returns (r: MallocResult)
      requires Valid()
      requires 0 < cnt < MAX_PAGES ==> FreeCount(space.Bits()) > 0 && FreeCount(mem.kernelPool.Bits()) >= cnt
      modifies this, space, space.vaddrBitmap.bits, mem.kernelPool.poolBitmap.bits
      ensures Valid() && arenas == old(arenas) && freeLists == old(freeLists) && live == old(live)
      ensures r.Panic? <==> cnt == 0 || cnt >= 3840
      ensures !r.Ptr? ==> others == old(others) && space.pte == old(space.pte)
      ensures r.Null? ==> IsFirstFit(old(space.Wide()), cnt, -1)
      ensures r.Ptr? ==> ArenaOf(r.addr) >= space.firstPage && IsFirstFit(old(space.Wide()), cnt, ArenaOf(r.addr) - space.firstPage) &&
                         space.Wide() == SetRun(old(space.Wide()), ArenaOf(r.addr) - space.firstPage, cnt, true)
      ensures FreeCount(mem.kernelPool.Bits()) + (if r.Ptr? then cnt else 0) == FreeCount(old(mem.kernelPool.Bits()))
      ensures r.Ptr? ==> r.addr == PG_SIZE * ArenaOf(r.addr) && PageRange(ArenaOf(r.addr), cnt) !! old(space.pte.Keys) &&
                         others == old(others) + PageRange(ArenaOf(r.addr), cnt)
    {
      hide HeapOk, SpaceOk, TablesPresent, Unpack, FreeCount, IsFirstFit, TestBit, Granted, LeavesMap, ArenaOf, PageRange;
      if !(cnt > 0 && cnt < MAX_PAGES) {
        return Panic;
      }
      ghost var h, mapped, v, g, pte, k := View(), space.pte.Keys, space.Bits(), space.vaddrBitmap.Guard(), space.pte, mem.kernelPool.Bits();
      var page, frames := mem.MallocPage(space, cnt);
      if page == 0 {
        return Null;
      }
      GrantedPages(v, g, space.firstPage, pte, k, mem.kernelPool.firstFrame, page, cnt, frames, space.Wide(), space.pte, mem.kernelPool.Bits());
      GrantedFrames(v + [g], space.firstPage, pte, k, mem.kernelPool.firstFrame, page, cnt, frames, space.Wide(), space.pte, mem.kernelPool.Bits());
      OthersGain(h, mapped, page, cnt);
      others := others + PageRange(page, cnt);
      PageStart(page);
      r := Ptr(PG_SIZE * page);
    }

    /** mfree_page of such pages. */
    method FreeKernelPages(page: nat, cnt: nat)
      requires Valid() && cnt >= 1 && PageRange(page, cnt) <= others
      modifies this, space, space.vaddrBitmap.bits, mem.kernelPool.poolBitmap.bits
      ensures Valid() && arenas == old(arenas) && freeLists == old(freeLists) && live == old(live)
      ensures others == old(others) - PageRange(page, cnt)
      ensures page >= space.firstPage && space.Wide() == SetRun(old(space.Wide()), page - space.firstPage, cnt, false)
      ensures FreeCount(mem.kernelPool.Bits()) == FreeCount(old(mem.kernelPool.Bits())) + cnt
    {
      hide HeapOk, SpaceOk, TablesPresent, Unpack, TestBit, FreeCount;
      ghost var h, mapped := View(), space.pte.Keys;
      OthersLose(h, mapped, page, cnt);
      ReleasePages(page, cnt);
      others := others - PageRange(page, cnt);
    }
  }

  lemma NotAmongFirst(s: seq<nat>, n: nat)
    requires Distinct(s) && n < |s|
    ensures s[n] !in s[..n]
  {
  }

  /** The pages malloc_page grants were not mapped before, and are the only ones added. */
  lemma GrantedPages(v: seq<bool>, guard: bool, first: nat, pte: map<nat, nat>, k: seq<bool>, ks: nat, page: nat, cnt: nat,
                     frames: seq<nat>, w': seq<bool>, pte': map<nat, nat>, k': seq<bool>)
    requires SpaceOk(v, guard, first, pte, k, ks) && page != 0
    requires Granted(v + [guard], first, pte, k, ks, page, cnt, frames, w', pte', k')
    ensures page >= first && forall x :: page <= x < page + cnt ==> x !in pte.Keys
    ensures pte'.Keys == pte.Keys + PageRange(page, cnt)
  {
    hide Grew, FreeCount, SpaceOk;
    FitIsClear(v + [guard], cnt, page - first);
    ClearIsUnmapped(v, guard, first, pte, k, ks, page - first, cnt);
  }

  lemma GrantedFrames(w: seq<bool>, first: nat, pte: map<nat, nat>, k: seq<bool>, ks: nat, page: nat, cnt: nat, frames: seq<nat>,
                      w': seq<bool>, pte': map<nat, nat>, k': seq<bool>)
    requires Granted(w, first, pte, k, ks, page, cnt, frames, w', pte', k')
    ensures FreeCount(k') + cnt == FreeCount(k) && page >= first && IsFirstFit(w, cnt, page - first)
    ensures w' == SetRun(w, page - first, cnt, true)
  {
    hide FreeCount, IsFirstFit;
  }

  /** A first fit for the map itself lies inside it. */
  lemma GrantedInside(v: seq<bool>, cnt: nat, r: nat)
    ensures IsFirstFit(v, cnt, r) ==> r + cnt <= |v|
  {
  }

  lemma PageStart(p: nat)
    ensures ArenaOf(PG_SIZE * p) == p
  {
  }

  lemma OthersGain(h: Heap, mapped: set<nat>, p: nat, n: nat)
    requires HeapOk(h, mapped) && forall x :: p <= x < p + n ==> x !in mapped
    ensures HeapOk(h.(others := h.others + PageRange(p, n)), mapped + PageRange(p, n)) && PageRange(p, n) !! mapped
  {
    hide ArenaOk, ListOk, LiveOk, Covered;
    forall a, x: nat | a in h.arenas && a <= x < a + PageCount(h.arenas[a]) ensures x in mapped {
      CoveredMapped(h.arenas, h.others, mapped, a, x);
    }
  }

  lemma OthersLose(h: Heap, mapped: set<nat>, p: nat, n: nat)
    requires HeapOk(h, mapped) && PageRange(p, n) <= h.others
    ensures HeapOk(h.(others := h.others - PageRange(p, n)), mapped - PageRange(p, n))
    ensures forall x :: p <= x < p + n ==> x in mapped
  {
    hide ArenaOk, ListOk, LiveOk, PageRange;
    forall x | x in PageRange(p, n) ensures x in mapped && !Covered(x, h.arenas) {
    }
  }

  lemma FreshCount(h: Heap, p: nat, d: nat)
    requires |h.lists| == DESC_CNT && d < DESC_CNT
    ensures var h1 := FreshSmall(h, p, d);
            h1.lists[d] != [] && h1.lists[d][0] == BlockAddr(p, d, 0) && ArenaOf(h1.lists[d][0]) == p &&
            h1.arenas[p] == Small(d, PerArena(d)) && PerArena(d) > 0
  {
    AllBlocksAre(p, d);
    BlockInside(p, d, 0);
  }

  function RemoveElem(s: seq<nat>, b: nat): seq<nat> {
    if s == [] then [] else if s[0] == b then s[1..] else [s[0]] + RemoveElem(s[1..], b)
  }

  /** `x` stands somewhere in front of `y`. */
  ghost predicate Before(s: seq<nat>, x: nat, y: nat) {
    exists i, j :: 0 <= i < j < |s| && s[i] == x && s[j] == y
  }

  /** Who is left stands in the old order. */
  ghost predicate InOrder(s: seq<nat>, t: seq<nat>) {
    forall x, y :: Before(t, x, y) ==> Before(s, x, y)
  }

  lemma {:induction false} RemoveElemAt(s: seq<nat>, b: nat) returns (k: nat)
    requires b in s
    ensures k < |s| && s[k] == b && RemoveElem(s, b) == s[..k] + s[k + 1..]
  {
    if s[0] == b {
      k := 0;
    } else {
      k := RemoveElemAt(s[1..], b);
      assert s[..k + 1] + s[k + 2..] == [s[0]] + (s[1..][..k] + s[1..][k + 1..]);
      k := k + 1;
    }
  }

  lemma RemoveElemKeepsOrder(s: seq<nat>, b: nat)
    requires b in s
    ensures InOrder(s, RemoveElem(s, b))
  {
    var k := RemoveElemAt(s, b);
    var t := RemoveElem(s, b);
    forall x, y | Before(t, x, y) ensures Before(s, x, y) {
      var i, j :| 0 <= i < j < |t| && t[i] == x && t[j] == y;
      var i', j' := if i < k then i else i + 1, if j < k then j else j + 1;
      assert s[i'] == x && s[j'] == y;
    }
  }

  lemma {:induction false} RemoveElemIs(s: seq<nat>, b: nat)
    requires Distinct(s)
    ensures Distinct(RemoveElem(s, b)) && forall x :: x in RemoveElem(s, b) <==> x in s && x != b
  {
    if s != [] {
      TailOf(s);
      if s[0] != b {
        RemoveElemIs(s[1..], b);
        assert s[0] !in RemoveElem(s[1..], b);
      }
    }
  }

  ghost predicate AmongFirst(x: nat, p: nat, d: nat, n: nat)
    requires d < DESC_CNT
  {
    exists i: nat :: i < n && x == BlockAddr(p, d, i)
  }

  /** The first `n` blocks of the arena have left the list. */
  ghost predicate Drained(list0: seq<nat>, list: seq<nat>, p: nat, d: nat, n: nat)
    requires d < DESC_CNT
  {
    Distinct(list) && forall x :: x in list <==> x in list0 && !AmongFirst(x, p, d, n)
  }

  lemma DrainStart(list0: seq<nat>, p: nat, d: nat)
    requires d < DESC_CNT && Distinct(list0)
    ensures Drained(list0, list0, p, d, 0)
  {
  }

  lemma DrainStep(list0: seq<nat>, list: seq<nat>, p: nat, d: nat, n: nat)
    requires d < DESC_CNT && n < PerArena(d) && Drained(list0, list, p, d, n) && forall x :: IsBlock(x, p, d) ==> x in list0
    ensures BlockAddr(p, d, n) in list && Drained(list0, RemoveElem(list, BlockAddr(p, d, n)), p, d, n + 1)
  {
    hide BlockSize, PerArena, BlockAddr, Distinct;
    var b := BlockAddr(p, d, n);
    RemoveElemIs(list, b);
    assert IsBlock(b, p, d);
    forall i: nat | i < n ensures BlockAddr(p, d, i) != b { AddrInjective(p, d, i, n); }
    forall x: nat ensures AmongFirst(x, p, d, n + 1) <==> x == b || AmongFirst(x, p, d, n) {
      if AmongFirst(x, p, d, n + 1) && x != b {
        var i: nat :| i < n + 1 && x == BlockAddr(p, d, i);
        assert i < n;
      }
    }
  }

  lemma DrainEnd(list0: seq<nat>, list: seq<nat>, p: nat, d: nat)
    requires d < DESC_CNT && Drained(list0, list, p, d, PerArena(d))
    ensures Distinct(list) && forall x :: x in list <==> x in list0 && !IsBlock(x, p, d)
  {
    hide BlockSize, PerArena, BlockAddr, Distinct;
  }

  lemma DrainedList(h: Heap, mapped: set<nat>, list: seq<nat>, list': seq<nat>, p: nat, d: nat, b: nat)
    requires HeapOk(h, mapped) && |h.lists| == DESC_CNT && d < DESC_CNT && list == h.lists[d] + [b]
    requires IsBlock(b, p, d) && ArenaOf(b) == p && forall x :: x in list' <==> x in list && !IsBlock(x, p, d)
    ensures forall x :: x in list' <==> x in h.lists[d] && ArenaOf(x) != p
  {
    hide HeapOk, BlockSize, PerArena, BlockAddr, ArenaOf, PagesCovered;
    HeapLists(h, mapped);
    AllBlocksAre(p, d);
    forall x: nat ensures x in list' <==> x in h.lists[d] && ArenaOf(x) != p {
      if x in h.lists[d] { assert ListedOk(x, d, h.arenas); }
    }
  }

  lemma MappedFrom(v: seq<bool>, guard: bool, first: nat, pte: map<nat, nat>, k: seq<bool>, ks: nat)
    requires SpaceOk(v, guard, first, pte, k, ks)
    ensures forall p :: p in pte.Keys ==> first <= p <= first + |v|
  {
  }

  /** Everything handed out lies in the heap, and the pages of its arena are mapped. */
  lemma InHeap(h: Heap, mapped: set<nat>, first: nat, n: nat, b: nat)
    requires HeapOk(h, mapped) && b in h.live && forall p :: p in mapped ==> first <= p < first + n
    ensures ArenaOf(b) in h.arenas && PageCount(h.arenas[ArenaOf(b)]) >= 1 && b >= PG_SIZE * first
    ensures forall x :: ArenaOf(b) <= x < ArenaOf(b) + PageCount(h.arenas[ArenaOf(b)]) ==> x in mapped
  {
    hide HeapOk, ArenaOf, BlockSize, Room, LiveOk, ArenaOk, ListedOk, Distinct;
    HeapLists(h, mapped);
    HeapLive(h, mapped, b);
    RoomOf(h, mapped, b);
    var a := ArenaOf(b);
    CoveredMapped(h.arenas, h.others, mapped, a, a);
    forall x: nat | a <= x < a + PageCount(h.arenas[a]) ensures x in mapped {
      CoveredMapped(h.arenas, h.others, mapped, a, x);
    }
  }

  lemma CountBelow(h: Heap, mapped: set<nat>, b: nat)
    requires HeapOk(h, mapped) && b in h.live && ArenaOf(b) in h.arenas && h.arenas[ArenaOf(b)].Small?
    ensures h.arenas[ArenaOf(b)].desc < DESC_CNT && h.arenas[ArenaOf(b)].cnt < PerArena(h.arenas[ArenaOf(b)].desc)
  {
    hide HeapOk, BlockSize, PerArena, BlockAddr, ArenaOf, PagesCovered;
    HeapLive(h, mapped, b);
  }
}

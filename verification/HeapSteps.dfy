/** Every way the kernel heap can change keeps its invariant (sys_malloc and sys_free in
    kernel/memory.c, without the page layer). */
module HeapSteps {
  import opened Util
  import opened Arenas

  /** Free lists and live addresses changed at most in the arena at page `p`. */
  ghost predicate SameOff(p: nat, h: Heap, h': Heap) {
    && |h.lists| == |h'.lists| == DESC_CNT
    && (forall d, x :: 0 <= d < DESC_CNT && ArenaOf(x) != p ==> (x in h'.lists[d] <==> x in h.lists[d]))
    && (forall x :: ArenaOf(x) != p ==> (x in h'.live <==> x in h.live) && (x in h.live ==> h'.live[x] == h.live[x]))
    && (forall q :: q != p ==> (q in h'.arenas <==> q in h.arenas) && (q in h.arenas ==> h'.arenas[q] == h.arenas[q]))
  }

  /** What the change has to provide at page `p` itself. */
  ghost predicate GoodAt(p: nat, h': Heap) {
    && |h'.lists| == DESC_CNT
    && (p in h'.arenas ==> ArenaOk(p, h'.arenas[p], h'.lists, h'.live))
    && (forall d :: 0 <= d < DESC_CNT ==> Distinct(h'.lists[d]))
    && (forall d, x :: 0 <= d < DESC_CNT && x in h'.lists[d] && ArenaOf(x) == p ==> ListedOk(x, d, h'.arenas))
    && (forall x :: x in h'.live && ArenaOf(x) == p ==> LiveOk(x, h'.live[x], h'.arenas))
  }

  lemma BlockOff(q: nat, d: nat, i: nat, p: nat)
    requires d < DESC_CNT && i < PerArena(d) && q != p
    ensures ArenaOf(BlockAddr(q, d, i)) != p
  {
    BlockInside(q, d, i);
  }

  lemma HeaderOff(q: nat)
    ensures ArenaOf(PG_SIZE * q + HEADER) == q
  {
  }

  lemma ArenaElsewhere(q: nat, a: Arena, p: nat, h: Heap, h': Heap)
    requires ArenaOk(q, a, h.lists, h.live) && SameOff(p, h, h') && q != p
    ensures ArenaOk(q, a, h'.lists, h'.live)
  {
    hide BlockSize, PerArena, BlockAddr, ArenaOf;
    if a.Small? {
      var d := a.desc;
      forall i: nat | i < PerArena(d)
        ensures BlockAddr(q, d, i) in h'.lists[d] <==> BlockAddr(q, d, i) in h.lists[d]
        ensures BlockAddr(q, d, i) in h'.live <==> BlockAddr(q, d, i) in h.live
      {
        BlockOff(q, d, i, p);
      }
      assert FreeSet(h'.lists[d], q, d) == FreeSet(h.lists[d], q, d);
    } else {
      HeaderOff(q);
    }
  }

  lemma HeapChange(h: Heap, mapped: set<nat>, h': Heap, mapped': set<nat>, p: nat)
    requires HeapOk(h, mapped) && SameOff(p, h, h') && GoodAt(p, h') && PagesCovered(h'.arenas, h'.others, mapped')
    ensures HeapOk(h', mapped')
  {
    hide ArenaOk, IsBlock, BlockSize, ArenaOf, PagesCovered;
    forall q | q in h'.arenas ensures ArenaOk(q, h'.arenas[q], h'.lists, h'.live) {
      if q != p { ArenaElsewhere(q, h.arenas[q], p, h, h'); }
    }
    forall d | 0 <= d < DESC_CNT ensures ListOk(h'.lists[d], d, h'.arenas) {
      assert ListOk(h.lists[d], d, h.arenas);
      forall x | x in h'.lists[d] ensures ListedOk(x, d, h'.arenas) {
        if ArenaOf(x) != p { assert ListedOk(x, d, h.arenas); }
      }
    }
    forall x | x in h'.live ensures LiveOk(x, h'.live[x], h'.arenas) {
      if ArenaOf(x) != p { assert LiveOk(x, h.live[x], h.arenas); }
    }
  }

  // ----- taking a block from a free list

  function Taken(h: Heap, d: nat, size: nat): Heap
    requires |h.lists| == DESC_CNT && d < DESC_CNT && h.lists[d] != []
  {
    var b := h.lists[d][0];
    var p := ArenaOf(b);
    var arenas := if p in h.arenas && h.arenas[p].Small? && h.arenas[p].cnt > 0 then h.arenas[p := Small(h.arenas[p].desc, h.arenas[p].cnt - 1)]
                  else h.arenas;
    Heap(arenas, h.lists[d := h.lists[d][1..]], h.live[b := size], h.others)
  }

  lemma TailOf(s: seq<nat>)
    requires Distinct(s) && s != []
    ensures Distinct(s[1..]) && forall x :: x in s[1..] <==> x in s && x != s[0]
  {
    forall x | x in s && x != s[0] ensures x in s[1..] {
      var i :| 0 <= i < |s| && s[i] == x;
      assert s[1..][i - 1] == x;
    }
  }

  /** One block fewer on the list: the set of free blocks loses exactly that one. */
  lemma FreeSetLoses(list: seq<nat>, list': seq<nat>, p: nat, d: nat, b: nat)
    requires IsBlock(b, p, d) && b in list && forall x :: x in list' <==> x in list && x != b
    ensures |FreeSet(list', p, d)| == |FreeSet(list, p, d)| - 1
  {
    hide BlockSize, PerArena, BlockAddr;
    var i: nat :| i < PerArena(d) && b == BlockAddr(p, d, i);
    var s, s' := FreeSet(list, p, d), FreeSet(list', p, d);
    forall j: nat | j < PerArena(d) && j != i ensures BlockAddr(p, d, j) != b { AddrInjective(p, d, i, j); }
    assert s' == s - {i};
  }

  lemma AddrInjective(p: nat, d: nat, i: nat, j: nat)
    requires d < DESC_CNT && i != j
    ensures BlockAddr(p, d, i) != BlockAddr(p, d, j)
  {
    if i < j { BlocksApart(p, d, i, j); } else { BlocksApart(p, d, j, i); }
  }

  lemma TakeSmallOk(p: nat, d: nat, cnt: nat, h: Heap, size: nat)
    requires |h.lists| == DESC_CNT && SmallOk(p, d, cnt, h.lists, h.live) && h.lists[d] != [] && IsBlock(h.lists[d][0], p, d)
    requires Distinct(h.lists[d])
    ensures cnt > 0 && SmallOk(p, d, cnt - 1, h.lists[d := h.lists[d][1..]], h.live[h.lists[d][0] := size])
  {
    hide BlockSize, PerArena, BlockAddr, FreeSet;
    TailOf(h.lists[d]);
    FreeSetLoses(h.lists[d], h.lists[d][1..], p, d, h.lists[d][0]);
  }

  lemma ListHead(h: Heap, mapped: set<nat>, d: nat)
    requires HeapOk(h, mapped) && d < DESC_CNT && h.lists[d] != []
    ensures var b := h.lists[d][0];
            && ListedOk(b, d, h.arenas) && b !in h.live && Distinct(h.lists[d])
            && SmallOk(ArenaOf(b), d, h.arenas[ArenaOf(b)].cnt, h.lists, h.live)
  {
    hide PagesCovered, LiveOk, BlockSize, PerArena, BlockAddr, FreeSet, ArenaOf;
    assert ListOk(h.lists[d], d, h.arenas);
    var b := h.lists[d][0];
    assert b in h.lists[d] && ListedOk(b, d, h.arenas);
    assert ArenaOk(ArenaOf(b), h.arenas[ArenaOf(b)], h.lists, h.live);
  }

  lemma TakeKeeps(h: Heap, mapped: set<nat>, d: nat, size: nat)
    requires HeapOk(h, mapped) && d < DESC_CNT && h.lists[d] != [] && 0 < size <= BlockSize(d)
    ensures HeapOk(Taken(h, d, size), mapped) && h.lists[d][0] !in h.live
    ensures var p := ArenaOf(h.lists[d][0]);
            p in h.arenas && h.arenas[p].Small? && h.arenas[p].desc == d && h.arenas[p].cnt > 0 &&
            Taken(h, d, size).arenas == h.arenas[p := Small(d, h.arenas[p].cnt - 1)]
  {
    hide HeapOk, BlockSize, ArenaOf, IsBlock, SmallOk, PagesCovered;
    HeapLists(h, mapped);
    ListHead(h, mapped, d);
    var b := h.lists[d][0];
    var p := ArenaOf(b);
    TakeSmallOk(p, d, h.arenas[p].cnt, h, size);
    TailOf(h.lists[d]);
    TakePages(h, mapped, p, Small(d, h.arenas[p].cnt - 1));
    var h' := Taken(h, d, size);
    forall x | x in h'.live && ArenaOf(x) == p ensures LiveOk(x, h'.live[x], h'.arenas) {
      if x != b { HeapLive(h, mapped, x); }
    }
    HeapChange(h, mapped, h', mapped, p);
  }

  lemma HeapLists(h: Heap, mapped: set<nat>)
    requires HeapOk(h, mapped)
    ensures |h.lists| == DESC_CNT && forall d :: 0 <= d < DESC_CNT ==> Distinct(h.lists[d])
    ensures forall d, x :: 0 <= d < DESC_CNT && x in h.lists[d] ==> ListedOk(x, d, h.arenas)
    ensures PagesCovered(h.arenas, h.others, mapped)
  {
    hide PagesCovered, LiveOk, ListedOk, ArenaOk, Distinct;
    forall d | 0 <= d < DESC_CNT ensures Distinct(h.lists[d]) && forall x :: x in h.lists[d] ==> ListedOk(x, d, h.arenas) {
      assert ListOk(h.lists[d], d, h.arenas);
    }
  }

  /** Changing an arena's count does not move it. */
  lemma TakePages(h: Heap, mapped: set<nat>, p: nat, a: Arena)
    requires PagesCovered(h.arenas, h.others, mapped) && p in h.arenas && PageCount(a) == PageCount(h.arenas[p])
    ensures PagesCovered(h.arenas[p := a], h.others, mapped)
  {
    hide Covered;
    forall x: nat { CoverSame(h.arenas, p, a, x); }
  }

  lemma CoverSame(arenas: map<nat, Arena>, p: nat, a: Arena, x: nat)
    requires p in arenas && PageCount(a) == PageCount(arenas[p])
    ensures Covered(x, arenas[p := a]) <==> Covered(x, arenas)
  {
    var arenas' := arenas[p := a];
    if Covered(x, arenas') {
      var q :| q in arenas' && q <= x < q + PageCount(arenas'[q]);
      assert q in arenas && q <= x < q + PageCount(arenas[q]);
    }
    if Covered(x, arenas) {
      var q :| q in arenas && q <= x < q + PageCount(arenas[q]);
      assert q in arenas' && q <= x < q + PageCount(arenas'[q]);
    }
  }

  // ----- new arenas

  /** The pages from `p` on, `n` of them. */
  ghost function PageRange(p: nat, n: nat): (s: set<nat>)
    ensures forall x: int :: x in s <==> p <= x < p + n
  {
    if n == 0 then {} else PageRange(p, n - 1) + {p + n - 1}
  }

  lemma CoveredMapped(arenas: map<nat, Arena>, others: set<nat>, mapped: set<nat>, q: nat, x: nat)
    requires PagesCovered(arenas, others, mapped) && q in arenas && q <= x < q + PageCount(arenas[q])
    ensures x in mapped
  {
    assert Covered(x, arenas);
  }

  lemma ApartFromNew(arenas: map<nat, Arena>, others: set<nat>, mapped: set<nat>, p: nat, n: nat, q: nat)
    requires PagesCovered(arenas, others, mapped) && q in arenas && n >= 1 && forall x :: p <= x < p + n ==> x !in mapped
    ensures q != p && (q < p ==> q + PageCount(arenas[q]) <= p) && (p < q ==> p + n <= q)
  {
    CoveredMapped(arenas, others, mapped, q, q);
    hide PagesCovered;
    if q < p < q + PageCount(arenas[q]) { CoveredMapped(arenas, others, mapped, q, p); }
  }

  lemma CoverAdded(arenas: map<nat, Arena>, p: nat, a: Arena, x: nat)
    requires p !in arenas
    ensures Covered(x, arenas[p := a]) <==> Covered(x, arenas) || p <= x < p + PageCount(a)
  {
    var arenas' := arenas[p := a];
    if Covered(x, arenas) {
      var q :| q in arenas && q <= x < q + PageCount(arenas[q]);
      assert q in arenas' && q <= x < q + PageCount(arenas'[q]);
    }
    if p <= x < p + PageCount(a) { assert p in arenas' && p <= x < p + PageCount(arenas'[p]); }
  }

  lemma PagesAdded(arenas: map<nat, Arena>, others: set<nat>, mapped: set<nat>, p: nat, a: Arena)
    requires PagesCovered(arenas, others, mapped) && PageCount(a) >= 1
    requires forall x :: p <= x < p + PageCount(a) ==> x !in mapped
    ensures p !in arenas && PagesCovered(arenas[p := a], others, mapped + PageRange(p, PageCount(a)))
  {
    hide Covered;
    forall q | q in arenas ensures (q < p ==> q + PageCount(arenas[q]) <= p) && (p < q ==> p + PageCount(a) <= q) && q != p {
      ApartFromNew(arenas, others, mapped, p, PageCount(a), q);
    }
    forall x: nat { CoverAdded(arenas, p, a, x); }
  }

  /** Removing an arena leaves exactly the other pages. */
  lemma PagesRemoved(arenas: map<nat, Arena>, others: set<nat>, mapped: set<nat>, p: nat)
    requires PagesCovered(arenas, others, mapped) && p in arenas
    ensures PagesCovered(arenas - {p}, others, mapped - PageRange(p, PageCount(arenas[p])))
  {
    hide Covered;
    var n := PageCount(arenas[p]);
    forall x: nat ensures Covered(x, arenas - {p}) <==> Covered(x, arenas) && !(p <= x < p + n) {
      CoverRemoved(arenas, others, mapped, p, x);
    }
  }

  lemma CoverRemoved(arenas: map<nat, Arena>, others: set<nat>, mapped: set<nat>, p: nat, x: nat)
    requires PagesCovered(arenas, others, mapped) && p in arenas
    ensures Covered(x, arenas - {p}) <==> Covered(x, arenas) && !(p <= x < p + PageCount(arenas[p]))
  {
    var rest := arenas - {p};
    if Covered(x, rest) {
      var q :| q in rest && q <= x < q + PageCount(rest[q]);
      assert q in arenas && q <= x < q + PageCount(arenas[q]);
    }
    if Covered(x, arenas) && !(p <= x < p + PageCount(arenas[p])) {
      var q :| q in arenas && q <= x < q + PageCount(arenas[q]);
      assert q in rest && q <= x < q + PageCount(rest[q]);
    }
  }

  lemma NothingAt(h: Heap, mapped: set<nat>, p: nat)
    requires HeapOk(h, mapped) && p !in h.arenas
    ensures forall d, x :: 0 <= d < DESC_CNT && x in h.lists[d] ==> ArenaOf(x) != p
    ensures forall x :: x in h.live ==> ArenaOf(x) != p
  {
    hide HeapOk, PagesCovered, IsBlock, ArenaOf;
    HeapLists(h, mapped);
    forall x | x in h.live ensures ArenaOf(x) != p { HeapLive(h, mapped, x); }
  }

  function NewLarge(h: Heap, p: nat, pages: nat, size: nat): Heap {
    Heap(h.arenas[p := Large(pages)], h.lists, h.live[PG_SIZE * p + HEADER := size], h.others)
  }

  lemma NewLargeKeeps(h: Heap, mapped: set<nat>, p: nat, pages: nat, size: nat)
    requires HeapOk(h, mapped) && 1024 < size && size + HEADER <= PG_SIZE * pages
    requires forall x :: p <= x < p + pages ==> x !in mapped
    ensures HeapOk(NewLarge(h, p, pages, size), mapped + PageRange(p, pages)) && PG_SIZE * p + HEADER !in h.live
  {
    hide HeapOk, BlockSize, ArenaOf, IsBlock, PagesCovered;
    HeapLists(h, mapped);
    PagesAdded(h.arenas, h.others, mapped, p, Large(pages));
    NothingAt(h, mapped, p);
    HeaderOff(p);
    HeapChange(h, mapped, NewLarge(h, p, pages, size), mapped + PageRange(p, pages), p);
  }

  function AllBlocks(p: nat, d: nat): seq<nat>
    requires d < DESC_CNT
  {
    seq(PerArena(d), i requires 0 <= i < PerArena(d) => BlockAddr(p, d, i))
  }

  /** A new small arena with all its blocks on the list. */
  function FreshSmall(h: Heap, p: nat, d: nat): Heap
    requires |h.lists| == DESC_CNT && d < DESC_CNT
  {
    Heap(h.arenas[p := Small(d, PerArena(d))], h.lists[d := AllBlocks(p, d)], h.live, h.others)
  }

  lemma AllBlocksAre(p: nat, d: nat)
    requires d < DESC_CNT
    ensures |AllBlocks(p, d)| == PerArena(d) && Distinct(AllBlocks(p, d)) && AllBlocks(p, d)[0] == BlockAddr(p, d, 0)
    ensures forall x :: x in AllBlocks(p, d) <==> IsBlock(x, p, d)
    ensures forall x :: IsBlock(x, p, d) ==> ArenaOf(x) == p
    ensures |FreeSet(AllBlocks(p, d), p, d)| == PerArena(d)
  {
    hide BlockSize, PerArena, BlockAddr, ArenaOf;
    var s := AllBlocks(p, d);
    forall i, j | 0 <= i < j < |s| ensures s[i] != s[j] { AddrInjective(p, d, i, j); }
    forall x | IsBlock(x, p, d) ensures x in s && ArenaOf(x) == p {
      var i: nat :| i < PerArena(d) && x == BlockAddr(p, d, i);
      assert s[i] == x;
      BlockInside(p, d, i);
    }
    forall x | x in s ensures IsBlock(x, p, d) {
      var i :| 0 <= i < |s| && s[i] == x;
      assert BlockAddr(p, d, i) == x;
    }
    forall i: nat | i < PerArena(d) ensures i in FreeSet(s, p, d) { assert s[i] == BlockAddr(p, d, i); }
    FullSet(FreeSet(s, p, d), PerArena(d));
  }

  lemma FreshSmallOk(p: nat, d: nat, lists: seq<seq<nat>>, live: map<nat, nat>, size: nat)
    requires |lists| == DESC_CNT && d < DESC_CNT && lists[d] == AllBlocks(p, d)[1..]
    requires forall x :: IsBlock(x, p, d) ==> (x in live <==> x == BlockAddr(p, d, 0))
    ensures SmallOk(p, d, PerArena(d) - 1, lists, live)
  {
    AllBlocksAre(p, d);
    hide BlockSize, PerArena, BlockAddr, ArenaOf, AllBlocks, FreeSet;
    TailOf(AllBlocks(p, d));
    FreeSetLoses(AllBlocks(p, d), lists[d], p, d, BlockAddr(p, d, 0));
    forall i: nat | i < PerArena(d) ensures BlockAddr(p, d, i) in lists[d] <==> BlockAddr(p, d, i) !in live {
      assert IsBlock(BlockAddr(p, d, i), p, d);
    }
  }

  /** The first block of a new arena is handed out at once, so it is never wholly free. */
  lemma NewSmallKeeps(h: Heap, mapped: set<nat>, p: nat, d: nat, size: nat)
    requires HeapOk(h, mapped) && d < DESC_CNT && h.lists[d] == [] && 0 < size <= BlockSize(d) && p !in mapped
    ensures |FreshSmall(h, p, d).lists[d]| > 0 && FreshSmall(h, p, d).lists[d][0] == BlockAddr(p, d, 0)
    ensures HeapOk(Taken(FreshSmall(h, p, d), d, size), mapped + PageRange(p, 1)) && BlockAddr(p, d, 0) !in h.live
    ensures ArenaOf(BlockAddr(p, d, 0)) == p
  {
    hide HeapOk, BlockSize, ArenaOf, PagesCovered, AllBlocks, PerArena, BlockAddr, SmallOk;
    HeapLists(h, mapped);
    PagesAdded(h.arenas, h.others, mapped, p, Small(d, PerArena(d) - 1));
    NothingAt(h, mapped, p);
    AllBlocksAre(p, d);
    BlockInside(p, d, 0);
    TailOf(AllBlocks(p, d));
    var h' := Taken(FreshSmall(h, p, d), d, size);
    assert h'.arenas == h.arenas[p := Small(d, PerArena(d) - 1)];
    FreshSmallOk(p, d, h'.lists, h'.live, size);
    HeapChange(h, mapped, h', mapped + PageRange(p, 1), p);
  }

  // ----- giving blocks and arenas back

  function Given(h: Heap, b: nat): Heap
    requires |h.lists| == DESC_CNT && ArenaOf(b) in h.arenas && h.arenas[ArenaOf(b)].Small? && h.arenas[ArenaOf(b)].desc < DESC_CNT
  {
    var p := ArenaOf(b);
    var d := h.arenas[p].desc;
    Heap(h.arenas[p := Small(d, h.arenas[p].cnt + 1)], h.lists[d := h.lists[d] + [b]], h.live - {b}, h.others)
  }

  lemma FreeSetGains(list: seq<nat>, p: nat, d: nat, b: nat)
    requires IsBlock(b, p, d) && b !in list
    ensures |FreeSet(list + [b], p, d)| == |FreeSet(list, p, d)| + 1
  {
    hide BlockSize, PerArena, BlockAddr;
    FreeSetLoses(list + [b], list, p, d, b);
  }

  /** What is known of a small allocation about to be freed. */
  lemma SmallLive(h: Heap, mapped: set<nat>, b: nat)
    requires HeapOk(h, mapped) && b in h.live && h.arenas[ArenaOf(b)].Small?
    ensures |h.lists| == DESC_CNT
    ensures var p := ArenaOf(b); p in h.arenas && h.arenas[p].desc < DESC_CNT
    ensures var p := ArenaOf(b);
            var d := h.arenas[p].desc;
            && IsBlock(b, p, d) && SmallOk(p, d, h.arenas[p].cnt, h.lists, h.live)
            && b !in h.lists[d] && Distinct(h.lists[d])
  {
    hide HeapOk, BlockSize, ArenaOf, PagesCovered, PerArena, BlockAddr, FreeSet;
    HeapLists(h, mapped);
    HeapLive(h, mapped, b);
  }

  lemma GiveSmallOk(p: nat, d: nat, cnt: nat, lists: seq<seq<nat>>, live: map<nat, nat>, b: nat)
    requires |lists| == DESC_CNT && SmallOk(p, d, cnt, lists, live) && IsBlock(b, p, d) && b !in lists[d] && cnt + 1 < PerArena(d)
    ensures SmallOk(p, d, cnt + 1, lists[d := lists[d] + [b]], live - {b})
  {
    hide BlockSize, PerArena, BlockAddr, FreeSet;
    FreeSetGains(lists[d], p, d, b);
  }

  lemma GiveKeeps(h: Heap, mapped: set<nat>, b: nat)
    requires HeapOk(h, mapped) && b in h.live && ArenaOf(b) in h.arenas && h.arenas[ArenaOf(b)].Small?
    requires h.arenas[ArenaOf(b)].desc < DESC_CNT && h.arenas[ArenaOf(b)].cnt + 1 < PerArena(h.arenas[ArenaOf(b)].desc)
    ensures |h.lists| == DESC_CNT && HeapOk(Given(h, b), mapped)
  {
    hide HeapOk, BlockSize, ArenaOf, IsBlock, PagesCovered, PerArena, SmallOk;
    HeapLists(h, mapped);
    SmallLive(h, mapped, b);
    var p := ArenaOf(b);
    var d, cnt := h.arenas[p].desc, h.arenas[p].cnt;
    GiveSmallOk(p, d, cnt, h.lists, h.live, b);
    TakePages(h, mapped, p, Small(d, cnt + 1));
    var h' := Given(h, b);
    forall x | x in h'.live && ArenaOf(x) == p ensures LiveOk(x, h'.live[x], h'.arenas) { HeapLive(h, mapped, x); }
    HeapChange(h, mapped, h', mapped, p);
  }

  /** When a block comes back and fills the count, every block of the arena is on the list. */
  lemma WhollyFree(h: Heap, mapped: set<nat>, b: nat)
    requires HeapOk(h, mapped) && b in h.live && ArenaOf(b) in h.arenas && h.arenas[ArenaOf(b)].Small?
    requires h.arenas[ArenaOf(b)].desc < DESC_CNT && h.arenas[ArenaOf(b)].cnt + 1 == PerArena(h.arenas[ArenaOf(b)].desc)
    ensures |h.lists| == DESC_CNT
    ensures var d := h.arenas[ArenaOf(b)].desc;
            && (forall x :: IsBlock(x, ArenaOf(b), d) ==> x in h.lists[d] + [b])
            && Distinct(h.lists[d] + [b])
            && (forall x :: x in h.live && ArenaOf(x) == ArenaOf(b) ==> x == b)
  {
    hide HeapOk, BlockSize, ArenaOf, PagesCovered, PerArena, BlockAddr, FreeSet;
    SmallLive(h, mapped, b);
    var p := ArenaOf(b);
    var d := h.arenas[p].desc;
    FreeSetGains(h.lists[d], p, d, b);
    FullList(h.lists[d] + [b], p, d);
    forall x | x in h.live && ArenaOf(x) == p ensures x == b { HeapLive(h, mapped, x); }
  }

  lemma FullList(list: seq<nat>, p: nat, d: nat)
    requires d < DESC_CNT && |FreeSet(list, p, d)| == PerArena(d)
    ensures forall x :: IsBlock(x, p, d) ==> x in list
  {
    hide BlockSize, PerArena, BlockAddr;
    FullSet(FreeSet(list, p, d), PerArena(d));
    forall x | IsBlock(x, p, d) ensures x in list {
      var i: nat :| i < PerArena(d) && x == BlockAddr(p, d, i);
      assert i in FreeSet(list, p, d);
    }
  }

  /** The arena is given back: its blocks leave the list, its page leaves the heap. */
  lemma GiveLastKeeps(h: Heap, mapped: set<nat>, b: nat, list': seq<nat>)
    requires HeapOk(h, mapped) && b in h.live && ArenaOf(b) in h.arenas && h.arenas[ArenaOf(b)].Small?
    requires |h.lists| == DESC_CNT
    requires h.arenas[ArenaOf(b)].desc < DESC_CNT && h.arenas[ArenaOf(b)].cnt + 1 == PerArena(h.arenas[ArenaOf(b)].desc)
    requires Distinct(list') && forall x :: x in list' <==> x in h.lists[h.arenas[ArenaOf(b)].desc] && ArenaOf(x) != ArenaOf(b)
    ensures HeapOk(Heap(h.arenas - {ArenaOf(b)}, h.lists[h.arenas[ArenaOf(b)].desc := list'], h.live - {b}, h.others),
                   mapped - PageRange(ArenaOf(b), 1))
  {
    hide HeapOk, BlockSize, ArenaOf, PagesCovered, PerArena, IsBlock;
    HeapLists(h, mapped);
    WhollyFree(h, mapped, b);
    var p := ArenaOf(b);
    PagesRemoved(h.arenas, h.others, mapped, p);
    HeapChange(h, mapped, Heap(h.arenas - {p}, h.lists[h.arenas[p].desc := list'], h.live - {b}, h.others), mapped - PageRange(p, 1), p);
  }

  lemma FreeLargeKeeps(h: Heap, mapped: set<nat>, b: nat)
    requires HeapOk(h, mapped) && b in h.live && ArenaOf(b) in h.arenas && h.arenas[ArenaOf(b)].Large?
    ensures HeapOk(Heap(h.arenas - {ArenaOf(b)}, h.lists, h.live - {b}, h.others),
                   mapped - PageRange(ArenaOf(b), h.arenas[ArenaOf(b)].pages))
  {
    hide HeapOk, BlockSize, ArenaOf, PagesCovered, PerArena, IsBlock;
    HeapLists(h, mapped);
    HeapLive(h, mapped, b);
    var p := ArenaOf(b);
    forall x | x in h.live && ArenaOf(x) == p ensures x == b { HeapLive(h, mapped, x); }
    PagesRemoved(h.arenas, h.others, mapped, p);
    HeapChange(h, mapped, Heap(h.arenas - {p}, h.lists, h.live - {b}, h.others), mapped - PageRange(p, h.arenas[p].pages), p);
  }
}

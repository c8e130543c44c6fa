/** The layout of the kernel heap: arenas, blocks and free lists, and what must hold between them
    (kernel/memory.c). */
module Arenas {
  import opened Util

  const PG_SIZE := 4096
  const HEADER := 12   // sizeof(struct arena)
  const DESC_CNT := 7

  /** The header at the start of an arena. For a large one `cnt` counts pages, for a small one the
      free blocks. */
  datatype Arena = Small(desc: nat, cnt: nat) | Large(pages: nat)

  // ----- block_desc_init, arena2block, block2arena

  function BlockSize(d: nat): nat
    requires d < DESC_CNT
  {
    [16, 32, 64, 128, 256, 512, 1024][d]
  }

  function PerArena(d: nat): (n: nat)
    requires d < DESC_CNT
    ensures 3 <= n <= 255
  {
    [255, 127, 63, 31, 15, 7, 3][d]
  }

  /** The table block_desc_init computes by doubling the size and dividing the page. */
  method BlockDescInit() returns (sizes: seq<nat>, perArena: seq<nat>)
    ensures sizes == [16, 32, 64, 128, 256, 512, 1024] && perArena == [255, 127, 63, 31, 15, 7, 3]
    ensures forall d :: 0 <= d < DESC_CNT ==> sizes[d] == BlockSize(d) && perArena[d] == PerArena(d)
  {
    sizes, perArena := [], [];
    var blockSize := 16;
    var descIdx := 0;
    while descIdx < DESC_CNT
      invariant 0 <= descIdx <= DESC_CNT && |sizes| == |perArena| == descIdx
      invariant blockSize == [16, 32, 64, 128, 256, 512, 1024, 2048][descIdx]
      invariant forall d :: 0 <= d < descIdx ==> sizes[d] == BlockSize(d) && perArena[d] == PerArena(d)
    {
      PerArenaIs(descIdx);
      sizes := sizes + [blockSize];
      perArena := perArena + [(PG_SIZE - HEADER) / blockSize];
      blockSize := blockSize * 2;
      descIdx := descIdx + 1;
    }
  }

  lemma PerArenaIs(d: nat)
    requires d < DESC_CNT
    ensures PerArena(d) == (PG_SIZE - HEADER) / BlockSize(d)
  {
    assert d == 0 || d == 1 || d == 2 || d == 3 || d == 4 || d == 5 || d == 6;
  }

  function BlockAddr(p: nat, d: nat, i: nat): nat
    requires d < DESC_CNT
  {
    PG_SIZE * p + HEADER + i * BlockSize(d)
  }

  function ArenaOf(b: nat): nat {
    b / PG_SIZE
  }

  /** Blocks start behind the header and end inside the page. */
  lemma BlockInside(p: nat, d: nat, i: nat)
    requires d < DESC_CNT && i < PerArena(d)
    ensures PG_SIZE * p + HEADER <= BlockAddr(p, d, i) && BlockAddr(p, d, i) + BlockSize(d) <= PG_SIZE * p + PG_SIZE
    ensures ArenaOf(BlockAddr(p, d, i)) == p
  {
    assert d == 0 || d == 1 || d == 2 || d == 3 || d == 4 || d == 5 || d == 6;
  }

  /** Different blocks of an arena do not overlap. */
  lemma BlocksApart(p: nat, d: nat, i: nat, j: nat)
    requires d < DESC_CNT && i < j
    ensures BlockAddr(p, d, i) + BlockSize(d) <= BlockAddr(p, d, j)
  {
    assert d == 0 || d == 1 || d == 2 || d == 3 || d == 4 || d == 5 || d == 6;
  }

  ghost predicate IsBlock(b: nat, p: nat, d: nat) {
    d < DESC_CNT && exists i: nat :: i < PerArena(d) && b == BlockAddr(p, d, i)
  }

  // ----- the invariant

  /** `live` maps every address handed out to the size asked for; `others` are the pages mapped for
      other purposes, such as thread control blocks. */
  datatype Heap = Heap(arenas: map<nat, Arena>, lists: seq<seq<nat>>, live: map<nat, nat>, others: set<nat>)

  function PageCount(a: Arena): nat {
    if a.Small? then 1 else a.pages
  }

  ghost function FreeSet(list: seq<nat>, p: nat, d: nat): set<nat>
    requires d < DESC_CNT
  {
    set i: nat | i < PerArena(d) && BlockAddr(p, d, i) in list
  }

  /** The free count is the number of its blocks on the list, not all of them; and each block is
      either on the list or handed out. */
  ghost predicate SmallOk(p: nat, d: nat, cnt: nat, lists: seq<seq<nat>>, live: map<nat, nat>) {
    && d < DESC_CNT == |lists| && cnt == |FreeSet(lists[d], p, d)| && cnt < PerArena(d)
    && forall i: nat :: i < PerArena(d) ==> (BlockAddr(p, d, i) in lists[d] <==> BlockAddr(p, d, i) !in live)
  }

  ghost predicate LargeOk(p: nat, pages: nat, live: map<nat, nat>) {
    var b := PG_SIZE * p + HEADER;
    pages >= 1 && b in live && live[b] > 1024 && live[b] + HEADER <= PG_SIZE * pages
  }

  ghost predicate ArenaOk(p: nat, a: Arena, lists: seq<seq<nat>>, live: map<nat, nat>) {
    if a.Small? then SmallOk(p, a.desc, a.cnt, lists, live) else LargeOk(p, a.pages, live)
  }

  /** A free list holds blocks of its size, each once. */
  ghost predicate ListOk(list: seq<nat>, d: nat, arenas: map<nat, Arena>) {
    Distinct(list) && forall b :: b in list ==> ListedOk(b, d, arenas)
  }

  ghost predicate ListedOk(b: nat, d: nat, arenas: map<nat, Arena>) {
    ArenaOf(b) in arenas && arenas[ArenaOf(b)].Small? && arenas[ArenaOf(b)].desc == d && IsBlock(b, ArenaOf(b), d)
  }

  /** What was handed out lies in an arena and is as large as was asked for. */
  ghost predicate LiveOk(b: nat, size: nat, arenas: map<nat, Arena>) {
    && size > 0 && ArenaOf(b) in arenas
    && match arenas[ArenaOf(b)]
       case Small(d, _) => IsBlock(b, ArenaOf(b), d) && size <= BlockSize(d)
       case Large(_) => b == PG_SIZE * ArenaOf(b) + HEADER
  }

  ghost predicate Covered(p: nat, arenas: map<nat, Arena>) {
    exists a :: a in arenas && a <= p < a + PageCount(arenas[a])
  }

  /** Arenas lie apart from each other and from other pages, and together with those they are all
      that is mapped. */
  ghost predicate PagesCovered(arenas: map<nat, Arena>, others: set<nat>, mapped: set<nat>) {
    && (forall a :: a in arenas ==> PageCount(arenas[a]) >= 1)
    && (forall a, b :: a in arenas && b in arenas && a < b ==> a + PageCount(arenas[a]) <= b)
    && (forall a, p :: a in arenas && a <= p < a + PageCount(arenas[a]) ==> p !in others)
    && forall p :: p in mapped <==> p in others || Covered(p, arenas)
  }

  ghost predicate HeapOk(h: Heap, mapped: set<nat>) {
    && |h.lists| == DESC_CNT
    && (forall p :: p in h.arenas ==> ArenaOk(p, h.arenas[p], h.lists, h.live))
    && (forall d :: 0 <= d < DESC_CNT ==> ListOk(h.lists[d], d, h.arenas))
    && (forall b :: b in h.live ==> LiveOk(b, h.live[b], h.arenas))
    && PagesCovered(h.arenas, h.others, mapped)
  }

  // ----- what the invariant says

  /** The bytes a live allocation may use. */
  ghost function Room(h: Heap, b: nat): int
    requires ArenaOf(b) in h.arenas && (h.arenas[ArenaOf(b)].Small? ==> h.arenas[ArenaOf(b)].desc < DESC_CNT)
  {
    match h.arenas[ArenaOf(b)]
    case Small(d, _) => BlockSize(d)
    case Large(pages) => PG_SIZE * pages - HEADER
  }

  lemma BlockRoom(b: nat, p: nat, d: nat)
    requires IsBlock(b, p, d)
    ensures d < DESC_CNT && PG_SIZE * p + HEADER <= b && b + BlockSize(d) <= PG_SIZE * p + PG_SIZE
  {
    hide BlockSize, PerArena, BlockAddr;
    var i: nat :| i < PerArena(d) && b == BlockAddr(p, d, i);
    BlockInside(p, d, i);
  }

  lemma BlocksDiffer(b: nat, c: nat, p: nat, d: nat)
    requires IsBlock(b, p, d) && IsBlock(c, p, d) && b < c
    ensures d < DESC_CNT && b + BlockSize(d) <= c
  {
    hide BlockSize, PerArena, BlockAddr;
    var i: nat :| i < PerArena(d) && b == BlockAddr(p, d, i);
    var j: nat :| j < PerArena(d) && c == BlockAddr(p, d, j);
    if j < i { BlocksApart(p, d, j, i); } else if i < j { BlocksApart(p, d, i, j); }
  }

  lemma HeapLive(h: Heap, mapped: set<nat>, b: nat)
    requires HeapOk(h, mapped) && b in h.live
    ensures LiveOk(b, h.live[b], h.arenas) && ArenaOf(b) in h.arenas
    ensures ArenaOk(ArenaOf(b), h.arenas[ArenaOf(b)], h.lists, h.live)
  {
    hide ArenaOk, ListOk, PagesCovered, IsBlock, BlockSize, ArenaOf;
  }

  lemma RoomOf(h: Heap, mapped: set<nat>, b: nat)
    requires HeapOk(h, mapped) && b in h.live
    ensures var p := ArenaOf(b);
            && p in h.arenas && (h.arenas[p].Small? ==> h.arenas[p].desc < DESC_CNT) && h.live[b] <= Room(h, b)
            && PG_SIZE * p + HEADER <= b && b + Room(h, b) <= PG_SIZE * (p + PageCount(h.arenas[p]))
  {
    hide HeapOk, BlockSize, SmallOk, IsBlock, ArenaOf;
    HeapLive(h, mapped, b);
    var p := ArenaOf(b);
    if h.arenas[p].Small? { BlockRoom(b, p, h.arenas[p].desc); }
  }

  /** Live allocations are at least as large as requested and do not overlap each other or any
      arena's header, and the arena found from the address is the one they lie in. */
  lemma LiveApart(h: Heap, mapped: set<nat>, b: nat, c: nat)
    requires HeapOk(h, mapped) && b in h.live && c in h.live && b < c
    ensures ArenaOf(b) in h.arenas && (h.arenas[ArenaOf(b)].Small? ==> h.arenas[ArenaOf(b)].desc < DESC_CNT)
    ensures h.live[b] <= Room(h, b) && b + Room(h, b) <= c
  {
    hide ArenaOk, ListOk, HeapOk, BlockSize, IsBlock, ArenaOf, Room;
    RoomOf(h, mapped, b);
    RoomOf(h, mapped, c);
    HeapLive(h, mapped, b);
    HeapLive(h, mapped, c);
    var p, q := ArenaOf(b), ArenaOf(c);
    if p == q {
      RoomIs(h, b);
      BlocksDiffer(b, c, p, h.arenas[p].desc);
    } else {
      ArenasApart(h, mapped, p, q);
    }
  }

  lemma RoomIs(h: Heap, b: nat)
    requires ArenaOf(b) in h.arenas && h.arenas[ArenaOf(b)].Small? && h.arenas[ArenaOf(b)].desc < DESC_CNT
    ensures Room(h, b) == BlockSize(h.arenas[ArenaOf(b)].desc)
  {
    hide BlockSize, ArenaOf;
  }

  lemma ArenasApart(h: Heap, mapped: set<nat>, p: nat, q: nat)
    requires HeapOk(h, mapped) && p in h.arenas && q in h.arenas
    ensures p < q ==> p + PageCount(h.arenas[p]) <= q
    ensures q < p ==> q + PageCount(h.arenas[q]) <= p
  {
    hide ArenaOk, ListOk, LiveOk;
  }

  lemma LiveClearOfHeaders(h: Heap, mapped: set<nat>, b: nat, a: nat)
    requires HeapOk(h, mapped) && b in h.live && a in h.arenas
    ensures ArenaOf(b) in h.arenas && (h.arenas[ArenaOf(b)].Small? ==> h.arenas[ArenaOf(b)].desc < DESC_CNT)
    ensures b + Room(h, b) <= PG_SIZE * a || PG_SIZE * a + HEADER <= b
  {
    hide HeapOk, ArenaOf, Room;
    RoomOf(h, mapped, b);
    ArenasApart(h, mapped, ArenaOf(b), a);
  }

  /** An arena always holds something that was handed out. */
  lemma ArenaInUse(p: nat, a: Arena, lists: seq<seq<nat>>, live: map<nat, nat>)
    requires ArenaOk(p, a, lists, live)
    ensures live != map[]
  {
    hide BlockSize, BlockAddr, PerArena;
    if a.Small? && live == map[] {
      forall i: nat | i < PerArena(a.desc) ensures i in FreeSet(lists[a.desc], p, a.desc) {
        assert BlockAddr(p, a.desc, i) !in live;
      }
      FullSet(FreeSet(lists[a.desc], p, a.desc), PerArena(a.desc));
    }
  }

  lemma HeadIn(list: seq<nat>)
    ensures list != [] ==> list[0] in list
  {
  }

  lemma NoArenasNoBlocks(list: seq<nat>, d: nat, arenas: map<nat, Arena>)
    requires ListOk(list, d, arenas) && arenas == map[]
    ensures list == []
  {
    HeadIn(list);
  }

  /** When nothing is handed out, no arena is left and only other pages are mapped. */
  lemma NothingLeaks(h: Heap, mapped: set<nat>)
    requires HeapOk(h, mapped) && h.live == map[]
    ensures h.arenas == map[] && mapped == h.others
    ensures forall d :: 0 <= d < DESC_CNT ==> h.lists[d] == []
  {
    hide ArenaOk, ListOk, LiveOk;
    if p :| p in h.arenas { ArenaInUse(p, h.arenas[p], h.lists, h.live); }
    forall d | 0 <= d < DESC_CNT ensures h.lists[d] == [] { NoArenasNoBlocks(h.lists[d], d, h.arenas); }
  }

  ghost function Below(n: nat): (s: set<nat>)
    ensures forall i: int :: i in s <==> 0 <= i < n
  {
    if n == 0 then {} else Below(n - 1) + {n - 1}
  }

  lemma {:induction false} BelowSize(n: nat)
    ensures |Below(n)| == n
  {
    if n == 0 {
      assert Below(n) == {};
    } else {
      BelowSize(n - 1);
      assert n - 1 !in Below(n - 1);
      assert Below(n) == Below(n - 1) + {n - 1};
    }
  }

  /** A set of numbers below `n` has at most `n` members, and `n` only if it has all of them. */
  lemma FullSet(s: set<nat>, n: nat)
    requires forall i :: i in s ==> i < n
    ensures |s| <= n && (|s| == n <==> s == Below(n))
  {
    BelowSize(n);
    SubsetSize(s, Below(n));
  }
}

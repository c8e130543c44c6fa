/** Copying an address space for fork, and giving it back at exit (userprog/fork.c,
    realease_prog_resource in userprog/wait_exit.c, kernel/memory.c). */
module Forks {
  import opened Util
  import opened Bitmaps
  import opened Pages

  const USER_PDES := 768

  /** What one frame holds. */
  datatype Page = Page(bytes: seq<bv8>)

  /** Memory as the processor sees it: the active page tables, and the contents of the frames. */
  class Machine {
    const mem: Memory
    var active: Space
    var contents: map<nat, Page>

    constructor (mem: Memory, active: Space, contents: map<nat, Page>)
      ensures this.mem == mem && this.active == active && this.contents == contents
    {
      this.mem, this.active, this.contents := mem, active, contents;
    }

    method PageDirActivate(space: Space)
      modifies this`active
      ensures active == space
    {
      active := space;
    }

    /** memcpy of a whole page out of the active address space. */
    method CopyOut(page: nat) returns (buf: Page)
      requires page in active.pte && active.pte[page] in contents
      ensures buf == contents[active.pte[page]]
    {
      buf := contents[active.pte[page]];
    }

    method CopyIn(page: nat, buf: Page)
      requires page in active.pte
      modifies this`contents
      ensures contents == old(contents)[active.pte[page] := buf]
    {
      contents := contents[active.pte[page] := buf];
    }

    /** A user frame for a page of the active address space; the bitmap is left alone. */
    method GetAPageWithoutOpVaddrBitmap(page: nat, ghost before: seq<bool>, ghost got: seq<nat>) returns (ghost frame: nat)
      requires mem.Valid() && page !in active.pte && FreeCount(mem.userPool.Bits()) > 0
      requires Grew(before, mem.userPool.Bits(), mem.userPool.firstFrame, got)
      requires PdeIdx(page) !in active.pde ==>
                 FreeCount(mem.kernelPool.Bits()) > 0 && forall p :: p in active.pte ==> PdeIdx(p) != PdeIdx(page)
      modifies active`pde, active`pte, mem.userPool.poolBitmap.bits, mem.kernelPool.poolBitmap.bits
      ensures Grew(before, mem.userPool.Bits(), mem.userPool.firstFrame, got + [frame])
      ensures active.pte == old(active.pte)[page := frame]
      ensures PdeIdx(page) in old(active.pde) ==> active.pde == old(active.pde) && mem.kernelPool.Bits() == old(mem.kernelPool.Bits())
      ensures PdeIdx(page) !in old(active.pde) ==>
                exists f: nat :: Grew(old(mem.kernelPool.Bits()), mem.kernelPool.Bits(), mem.kernelPool.firstFrame, [f]) &&
                                 active.pde == old(active.pde)[PdeIdx(page) := f]
    {
      hide Grew, FreeCount, Unpack, IsFirstFit, TestBit;
      var pagePhy := mem.userPool.Palloc(before, got);
      frame := pagePhy;
      var ok := mem.PageTableAdd(active, page, pagePhy);
      assert ok;
    }
  }

  // ----- the copy loop

  /** The directory entries that the set bits of `v` reach. */
  ghost function Dirs(v: seq<bool>, first: nat): set<nat> {
    set i | 0 <= i < |v| && v[i] :: PdeIdx(first + i)
  }

  /** After `n` bits: the child maps exactly the pages whose bits are set, each to a frame of its own
      with the parent's bytes; no other frame has changed. */
  ghost predicate Copied(v: seq<bool>, first: nat, n: nat, ppte: map<nat, nat>, c0: map<nat, Page>,
                         pte: map<nat, nat>, c: map<nat, Page>, got: seq<nat>) {
    && n <= |v| && |got| + FreeCount(v[..n]) == n
    && (forall p :: p in pte <==> first <= p < first + n && v[p - first])
    && (forall p :: p in pte ==> SamePage(p, ppte, c0, pte, c) && pte[p] in got)
    && (forall p, q :: p in pte && q in pte && p != q ==> pte[p] != pte[q])
    && (forall g :: g in got ==> Mapped(pte, g))
    && (forall f :: f in c0 && f !in got ==> f in c && c[f] == c0[f])
  }

  ghost predicate SamePage(p: nat, ppte: map<nat, nat>, c0: map<nat, Page>, pte: map<nat, nat>, c: map<nat, Page>) {
    p in ppte && p in pte && ppte[p] in c0 && pte[p] in c && c[pte[p]] == c0[ppte[p]]
  }

  lemma PageCopied(p: nat, ppte: map<nat, nat>, c0: map<nat, Page>, pte: map<nat, nat>, c: map<nat, Page>)
    requires SamePage(p, ppte, c0, pte, c)
    ensures p in ppte && p in pte && ppte[p] in c0 && pte[p] in c && c[pte[p]] == c0[ppte[p]]
  {
  }

  ghost predicate Mapped(pte: map<nat, nat>, g: int) {
    exists p :: p in pte && pte[p] == g
  }

  /** The child has exactly the tables its pages need, each in a kernel frame of its own. */
  ghost predicate Tabled(pte: map<nat, nat>, pde: map<nat, nat>, kgot: seq<nat>) {
    && (forall p :: p in pte ==> PdeIdx(p) in pde)
    && (forall d :: d in pde ==> pde[d] in kgot && Reached(pte, d))
    && (forall g :: g in kgot ==> Mapped(pde, g))
    && |kgot| == |pde|
  }

  ghost predicate Reached(pte: map<nat, nat>, d: nat) {
    exists p :: p in pte && PdeIdx(p) == d
  }

  lemma CopyStart(v: seq<bool>, first: nat, ppte: map<nat, nat>, c0: map<nat, Page>)
    ensures Copied(v, first, 0, ppte, c0, map[], c0, []) && Tabled(map[], map[], [])
  {
  }

  lemma SkipBit(v: seq<bool>, first: nat, n: nat, ppte: map<nat, nat>, c0: map<nat, Page>,
                pte: map<nat, nat>, c: map<nat, Page>, got: seq<nat>)
    requires Copied(v, first, n, ppte, c0, pte, c, got) && n < |v| && !v[n]
    ensures Copied(v, first, n + 1, ppte, c0, pte, c, got)
  {
    hide SamePage, Mapped;
    assert v[..n + 1][..n] == v[..n];
  }

  lemma {:induction false} SkipBits(v: seq<bool>, first: nat, n: nat, n': nat, ppte: map<nat, nat>, c0: map<nat, Page>,
                                    pte: map<nat, nat>, c: map<nat, Page>, got: seq<nat>)
    requires Copied(v, first, n, ppte, c0, pte, c, got) && n <= n' <= |v| && forall i :: n <= i < n' ==> !v[i]
    ensures Copied(v, first, n', ppte, c0, pte, c, got)
    decreases n' - n
  {
    hide Copied;
    if n < n' {
      SkipBit(v, first, n, ppte, c0, pte, c, got);
      SkipBits(v, first, n + 1, n', ppte, c0, pte, c, got);
    }
  }

  lemma CountBit(v: seq<bool>, n: nat)
    requires n < |v|
    ensures FreeCount(v[..n + 1]) == FreeCount(v[..n]) + if v[n] then 0 else 1
  {
    assert v[..n + 1][..n] == v[..n];
  }

  lemma SamePageKept(q: nat, ppte: map<nat, nat>, c0: map<nat, Page>, pte: map<nat, nat>, c: map<nat, Page>, p: nat, f: nat, x: Page)
    requires SamePage(q, ppte, c0, pte, c) && q != p && pte[q] != f
    ensures SamePage(q, ppte, c0, pte[p := f], c[f := x])
  {
  }

  lemma MappedKept(pte: map<nat, nat>, p: nat, f: nat, g: int)
    requires p !in pte
    ensures Mapped(pte[p := f], f) && (Mapped(pte, g) ==> Mapped(pte[p := f], g))
  {
    var pte' := pte[p := f];
    assert p in pte' && pte'[p] == f;
    if Mapped(pte, g) {
      var q :| q in pte && pte[q] == g;
      assert q in pte' && pte'[q] == g;
    }
  }

  lemma CopyBit(v: seq<bool>, first: nat, n: nat, ppte: map<nat, nat>, c0: map<nat, Page>,
                pte: map<nat, nat>, c: map<nat, Page>, got: seq<nat>, f: nat)
    requires Copied(v, first, n, ppte, c0, pte, c, got) && n < |v| && v[n] && f !in got
    requires first + n in ppte && ppte[first + n] in c0
    ensures Copied(v, first, n + 1, ppte, c0, pte[first + n := f], c[f := c0[ppte[first + n]]], got + [f])
  {
    hide FreeCount, Mapped;
    var p, x := first + n, c0[ppte[first + n]];
    var pte', c' := pte[p := f], c[f := x];
    CountBit(v, n);
    assert SamePage(p, ppte, c0, pte', c');
    hide SamePage;
    forall q | q in pte ensures SamePage(q, ppte, c0, pte', c') {
      assert pte[q] in got;
      SamePageKept(q, ppte, c0, pte, c, p, f, x);
    }
    forall g | g in got + [f] ensures Mapped(pte', g) { MappedKept(pte, p, f, g); }
  }

  lemma TableKept(pte: map<nat, nat>, pde: map<nat, nat>, kgot: seq<nat>, p: nat, f: nat)
    requires Tabled(pte, pde, kgot) && PdeIdx(p) in pde && p !in pte
    ensures Tabled(pte[p := f], pde, kgot)
  {
    hide Mapped;
    forall d | d in pde ensures Reached(pte[p := f], d) {
      assert Reached(pte, d);
      var q :| q in pte && PdeIdx(q) == d;
      assert q in pte[p := f];
    }
  }

  lemma TableAdded(pte: map<nat, nat>, pde: map<nat, nat>, kgot: seq<nat>, p: nat, f: nat, t: nat)
    requires Tabled(pte, pde, kgot) && PdeIdx(p) !in pde && p !in pte
    ensures Tabled(pte[p := f], pde[PdeIdx(p) := t], kgot + [t])
  {
    var pte', pde' := pte[p := f], pde[PdeIdx(p) := t];
    forall d | d in pde' ensures Reached(pte', d) {
      if d == PdeIdx(p) {
        assert p in pte';
      } else {
        assert Reached(pte, d);
        var q :| q in pte && PdeIdx(q) == d;
        assert q in pte';
      }
    }
    forall g | g in kgot + [t] ensures Mapped(pde', g) {
      if g == t {
        assert PdeIdx(p) in pde' && pde'[PdeIdx(p)] == t;
      } else {
        assert Mapped(pde, g);
        var d :| d in pde && pde[d] == g;
        assert d in pde' && pde'[d] == g;
      }
    }
  }

  // ----- there is room

  lemma {:induction false} FreeCountPrefix(v: seq<bool>, n: nat)
    requires n <= |v|
    ensures FreeCount(v) <= FreeCount(v[..n]) + |v| - n
    ensures n < |v| && v[n] ==> FreeCount(v) < FreeCount(v[..n]) + |v| - n
  {
    if n == |v| {
      assert v[..n] == v;
    } else {
      var t := v[..|v| - 1];
      FreeCountPrefix(t, n);
      assert t[..n] == v[..n];
    }
  }

  /** While a set bit is left, the pools have frames left for it. */
  lemma RoomLeft(v: seq<bool>, first: nat, n: nat, ppte: map<nat, nat>, c0: map<nat, Page>, pte: map<nat, nat>, c: map<nat, Page>,
                 got: seq<nat>, u0: seq<bool>, u: seq<bool>, us: nat)
    requires Copied(v, first, n, ppte, c0, pte, c, got) && n < |v| && v[n] && Grew(u0, u, us, got)
    requires FreeCount(u0) >= |v| - FreeCount(v)
    ensures FreeCount(u) > 0
  {
    FreeCountPrefix(v, n);
  }

  lemma TableRoomLeft(v: seq<bool>, first: nat, n: nat, pte: map<nat, nat>, pde: map<nat, nat>, kgot: seq<nat>,
                      k0: seq<bool>, k: seq<bool>, ks: nat)
    requires n < |v| && v[n] && Tabled(pte, pde, kgot) && Grew(k0, k, ks, kgot) && FreeCount(k0) >= |Dirs(v, first)|
    requires forall p :: p in pte ==> first <= p < first + |v| && v[p - first]
    requires PdeIdx(first + n) !in pde
    ensures FreeCount(k) > 0
  {
    hide FreeCount, PdeIdx;
    var dirs := Dirs(v, first);
    assert PdeIdx(first + n) in dirs;
    forall d | d in pde.Keys ensures d in dirs {
      assert Reached(pte, d);
      var p :| p in pte && PdeIdx(p) == d;
      assert v[p - first] && PdeIdx(first + (p - first)) == d;
    }
    SubsetSize(pde.Keys + {PdeIdx(first + n)}, dirs);
  }

  // ----- copy_body_stack3

  /** The kernel's own arrays are what they are: no two bitmaps share their bytes. */
  ghost predicate Separate(m: Machine, child: Space, parent: Space)
    reads m
  {
    && m.mem.Valid() && parent.Valid() && child != parent && parent.firstPage == child.firstPage
    && parent.vaddrBitmap.bits != m.mem.userPool.poolBitmap.bits && parent.vaddrBitmap.bits != m.mem.kernelPool.poolBitmap.bits
  }

  /** The parent's pages are mapped, to frames of the user pool that hold something. */
  ghost predicate ParentOk(v: seq<bool>, first: nat, ppte: map<nat, nat>, c0: map<nat, Page>, u0: seq<bool>, us: nat) {
    PagesOk(v, first, ppte, u0, us) && forall p :: p in ppte ==> ppte[p] in c0
  }

  /** The parent's page still reads as at the start: no frame taken since was in use then. */
  lemma ParentPage(v: seq<bool>, first: nat, n: nat, ppte: map<nat, nat>, c0: map<nat, Page>, u0: seq<bool>, us: nat,
                   pte: map<nat, nat>, c: map<nat, Page>, got: seq<nat>, u: seq<bool>)
    requires ParentOk(v, first, ppte, c0, u0, us) && Copied(v, first, n, ppte, c0, pte, c, got) && Grew(u0, u, us, got)
    requires n < |v| && v[n]
    ensures first + n in ppte && ppte[first + n] in c0 && ppte[first + n] in c && c[ppte[first + n]] == c0[ppte[first + n]]
    ensures first + n !in pte && forall p :: p in pte ==> first <= p < first + |v| && v[p - first]
  {
    hide FreeCount;
    assert first + n in ppte;
    assert ppte[first + n] !in got;
  }

  lemma LastIsNew(u0: seq<bool>, u: seq<bool>, us: nat, got: seq<nat>, f: nat)
    requires Grew(u0, u, us, got + [f])
    ensures f !in got
  {
    hide FreeCount;
    var all := got + [f];
    forall i | 0 <= i < |got| ensures got[i] != f { assert all[i] != all[|got|]; }
  }

  lemma GrewOne(k0: seq<bool>, k: seq<bool>, k': seq<bool>, ks: nat, kgot: seq<nat>, f: nat)
    requires Grew(k0, k, ks, kgot) && Grew(k, k', ks, [f])
    ensures Grew(k0, k', ks, kgot + [f])
  {
    hide FreeCount;
    assert f in [f] && !k[f - ks];
    assert f !in kgot;
  }

  /** Where the loop stands. */
  ghost predicate Standing(v: seq<bool>, first: nat, n: nat, ppte: map<nat, nat>, c0: map<nat, Page>, u0: seq<bool>, us: nat,
                           k0: seq<bool>, ks: nat, pte: map<nat, nat>, pde: map<nat, nat>, c: map<nat, Page>,
                           u: seq<bool>, k: seq<bool>, got: seq<nat>, kgot: seq<nat>) {
    && Copied(v, first, n, ppte, c0, pte, c, got) && Grew(u0, u, us, got)
    && Tabled(pte, pde, kgot) && Grew(k0, k, ks, kgot)
  }

  /** The body of the inner loop, for one set bit. */
  method CopyPage(m: Machine, child: Space, parent: Space, n: nat, ghost v: seq<bool>, ghost c0: map<nat, Page>,
                  ghost u0: seq<bool>, ghost k0: seq<bool>, ghost got: seq<nat>, ghost kgot: seq<nat>)
      returns (ghost got': seq<nat>, ghost kgot': seq<nat>)
    requires Separate(m, child, parent) && m.active == parent && n < |v| && v[n]
    requires ParentOk(v, parent.firstPage, parent.pte, c0, u0, m.mem.userPool.firstFrame)
    requires FreeCount(u0) >= |v| - FreeCount(v) && FreeCount(k0) >= |Dirs(v, parent.firstPage)|
    requires Standing(v, parent.firstPage, n, parent.pte, c0, u0, m.mem.userPool.firstFrame, k0, m.mem.kernelPool.firstFrame,
                      child.pte, child.pde, m.contents, m.mem.userPool.Bits(), m.mem.kernelPool.Bits(), got, kgot)
    modifies m`active, m`contents, child`pde, child`pte, m.mem.userPool.poolBitmap.bits, m.mem.kernelPool.poolBitmap.bits
    ensures m.active == parent
    ensures Standing(v, parent.firstPage, n + 1, parent.pte, c0, u0, m.mem.userPool.firstFrame, k0, m.mem.kernelPool.firstFrame,
                     child.pte, child.pde, m.contents, m.mem.userPool.Bits(), m.mem.kernelPool.Bits(), got', kgot')
  {
    hide Grew, FreeCount, Unpack, Copied, Tabled, ParentOk, Dirs, TestBit;
    ghost var first, us, ks := parent.firstPage, m.mem.userPool.firstFrame, m.mem.kernelPool.firstFrame;
    ghost var pte, pde, k := child.pte, child.pde, m.mem.kernelPool.Bits();
    ParentPage(v, first, n, parent.pte, c0, u0, us, pte, m.contents, got, m.mem.userPool.Bits());
    RoomLeft(v, first, n, parent.pte, c0, pte, m.contents, got, u0, m.mem.userPool.Bits(), us);
    var page := parent.firstPage + n;
    if PdeIdx(page) !in child.pde {
      TableRoomLeft(v, first, n, pte, pde, kgot, k0, k, ks);
      NoneReached(pte, pde, kgot, page);
    }
    var bufPage := m.CopyOut(page);
    m.PageDirActivate(child);
    ghost var frame := m.GetAPageWithoutOpVaddrBitmap(page, u0, got);
    LastIsNew(u0, m.mem.userPool.Bits(), us, got, frame);
    CopyBit(v, first, n, parent.pte, c0, pte, m.contents, got, frame);
    m.CopyIn(page, bufPage);
    m.PageDirActivate(parent);
    got' := got + [frame];
    if PdeIdx(page) in pde {
      TableKept(pte, pde, kgot, page, frame);
      kgot' := kgot;
    } else {
      ghost var f: nat :| Grew(k, m.mem.kernelPool.Bits(), ks, [f]) && child.pde == pde[PdeIdx(page) := f];
      TableAdded(pte, pde, kgot, page, frame, f);
      GrewOne(k0, k, m.mem.kernelPool.Bits(), ks, kgot, f);
      kgot' := kgot + [f];
    }
  }

  lemma NoneReached(pte: map<nat, nat>, pde: map<nat, nat>, kgot: seq<nat>, page: nat)
    requires Tabled(pte, pde, kgot) && PdeIdx(page) !in pde
    ensures forall p :: p in pte ==> PdeIdx(p) != PdeIdx(page)
  {
  }

  lemma ByteBits(bytes: seq<bv8>, j: nat)
    requires j < |bytes|
    ensures |Unpack(bytes)| == 8 * |bytes|
    ensures forall i :: 0 <= i < 8 ==> Unpack(bytes)[8 * j + i] == TestBit(bytes[j], i)
  {
    forall i | 0 <= i < 8 ensures Unpack(bytes)[8 * j + i] == TestBit(bytes[j], i) {
      assert (8 * j + i) / 8 == j && (8 * j + i) % 8 == i;
    }
  }

  lemma ZeroByte(k: nat)
    requires k < 8
    ensures !TestBit(0, k)
  {
  }

  lemma ZeroByteBits(bytes: seq<bv8>, j: nat)
    requires j < |bytes| && bytes[j] == 0
    ensures |Unpack(bytes)| == 8 * |bytes|
    ensures forall i :: 8 * j <= i < 8 * j + 8 ==> !Unpack(bytes)[i]
  {
    hide TestBit;
    ByteBits(bytes, j);
    forall i | 8 * j <= i < 8 * j + 8 ensures !Unpack(bytes)[i] {
      ZeroByte(i - 8 * j);
      assert Unpack(bytes)[8 * j + (i - 8 * j)] == TestBit(bytes[j], i - 8 * j);
    }
  }

  /** Copies every page the parent's bitmap marks, through a kernel buffer and with the page
      directories switched back and forth. */
  method CopyBodyStack3(m: Machine, child: Space, parent: Space) returns (ghost got: seq<nat>, ghost kgot: seq<nat>)
    requires Separate(m, child, parent) && m.active == parent && child.pte == map[] && child.pde == map[]
    requires ParentOk(parent.Bits(), parent.firstPage, parent.pte, m.contents, m.mem.userPool.Bits(), m.mem.userPool.firstFrame)
    requires FreeCount(m.mem.userPool.Bits()) >= |parent.Bits()| - FreeCount(parent.Bits())
    requires FreeCount(m.mem.kernelPool.Bits()) >= |Dirs(parent.Bits(), parent.firstPage)|
    modifies m`active, m`contents, child`pde, child`pte, m.mem.userPool.poolBitmap.bits, m.mem.kernelPool.poolBitmap.bits
    ensures m.active == parent
    ensures Standing(parent.Bits(), parent.firstPage, |parent.Bits()|, parent.pte, old(m.contents),
                     old(m.mem.userPool.Bits()), m.mem.userPool.firstFrame, old(m.mem.kernelPool.Bits()), m.mem.kernelPool.firstFrame,
                     child.pte, child.pde, m.contents, m.mem.userPool.Bits(), m.mem.kernelPool.Bits(), got, kgot)
    ensures var v, first := parent.Bits(), parent.firstPage;
            forall p :: p in child.pte <==> first <= p < first + |v| && v[p - first]
    ensures forall p :: p in child.pte ==>
              && p in parent.pte && parent.pte[p] in old(m.contents) && child.pte[p] in m.contents
              && m.contents[child.pte[p]] == old(m.contents)[parent.pte[p]]
    ensures forall p :: p in parent.pte ==>
              parent.pte[p] in old(m.contents) && parent.pte[p] in m.contents && m.contents[parent.pte[p]] == old(m.contents)[parent.pte[p]]
  {
    hide Grew, FreeCount, Unpack, Copied, Tabled, ParentOk, Dirs, TestBit, Standing;
    ghost var v, c0, u0, k0 := parent.Bits(), m.contents, m.mem.userPool.Bits(), m.mem.kernelPool.Bits();
    got, kgot := [], [];
    StandingStart(v, parent.firstPage, parent.pte, c0, u0, m.mem.userPool.firstFrame, k0, m.mem.kernelPool.firstFrame);
    var len := parent.vaddrBitmap.len;
    var idxByte := 0;
    while idxByte < len
      invariant idxByte <= len && m.active == parent && parent.Bits() == v
      invariant Standing(v, parent.firstPage, 8 * idxByte, parent.pte, c0, u0, m.mem.userPool.firstFrame, k0, m.mem.kernelPool.firstFrame,
                         child.pte, child.pde, m.contents, m.mem.userPool.Bits(), m.mem.kernelPool.Bits(), got, kgot)
    {
      var b := parent.vaddrBitmap.bits[idxByte];
      ByteBits(parent.vaddrBitmap.bits[..len], idxByte);
      if b != 0 {
        var idxBit := 0;
        while idxBit < 8
          invariant idxBit <= 8 && m.active == parent && parent.Bits() == v && parent.vaddrBitmap.bits[idxByte] == b
          invariant Standing(v, parent.firstPage, 8 * idxByte + idxBit, parent.pte, c0, u0, m.mem.userPool.firstFrame, k0,
                             m.mem.kernelPool.firstFrame, child.pte, child.pde, m.contents, m.mem.userPool.Bits(), m.mem.kernelPool.Bits(), got, kgot)
        {
          if TestBit(parent.vaddrBitmap.bits[idxByte], idxBit) {
            got, kgot := CopyPage(m, child, parent, 8 * idxByte + idxBit, v, c0, u0, k0, got, kgot);
          } else {
            StandingSkip(v, parent.firstPage, 8 * idxByte + idxBit, 8 * idxByte + idxBit + 1, parent.pte, c0, u0, m.mem.userPool.firstFrame, k0,
                         m.mem.kernelPool.firstFrame, child.pte, child.pde, m.contents, m.mem.userPool.Bits(), m.mem.kernelPool.Bits(), got, kgot);
          }
          idxBit := idxBit + 1;
        }
      } else {
        ZeroByteBits(parent.vaddrBitmap.bits[..len], idxByte);
        StandingSkip(v, parent.firstPage, 8 * idxByte, 8 * idxByte + 8, parent.pte, c0, u0, m.mem.userPool.firstFrame, k0,
                     m.mem.kernelPool.firstFrame, child.pte, child.pde, m.contents, m.mem.userPool.Bits(), m.mem.kernelPool.Bits(), got, kgot);
      }
      idxByte := idxByte + 1;
    }
    ForkIsolates(v, parent.firstPage, parent.pte, c0, u0, m.mem.userPool.firstFrame, k0, m.mem.kernelPool.firstFrame,
                 child.pte, child.pde, m.contents, m.mem.userPool.Bits(), m.mem.kernelPool.Bits(), got, kgot);
  }

  lemma StandingStart(v: seq<bool>, first: nat, ppte: map<nat, nat>, c0: map<nat, Page>, u0: seq<bool>, us: nat, k0: seq<bool>, ks: nat)
    ensures Standing(v, first, 0, ppte, c0, u0, us, k0, ks, map[], map[], c0, u0, k0, [], [])
  {
    hide Grew;
    CopyStart(v, first, ppte, c0);
    GrewStart(u0, us);
    GrewStart(k0, ks);
  }

  lemma StandingSkip(v: seq<bool>, first: nat, n: nat, n': nat, ppte: map<nat, nat>, c0: map<nat, Page>, u0: seq<bool>, us: nat,
                     k0: seq<bool>, ks: nat, pte: map<nat, nat>, pde: map<nat, nat>, c: map<nat, Page>,
                     u: seq<bool>, k: seq<bool>, got: seq<nat>, kgot: seq<nat>)
    requires Standing(v, first, n, ppte, c0, u0, us, k0, ks, pte, pde, c, u, k, got, kgot)
    requires n <= n' <= |v| && forall i :: n <= i < n' ==> !v[i]
    ensures Standing(v, first, n', ppte, c0, u0, us, k0, ks, pte, pde, c, u, k, got, kgot)
  {
    hide Grew, Tabled, Copied;
    SkipBits(v, first, n, n', ppte, c0, pte, c, got);
  }

  /** Fork isolates: the child maps exactly the marked pages, each to a frame that nobody used
      before and with the parent's bytes in it, while the parent reads what it read before. */
  lemma ForkIsolates(v: seq<bool>, first: nat, ppte: map<nat, nat>, c0: map<nat, Page>, u0: seq<bool>, us: nat, k0: seq<bool>, ks: nat,
                     pte: map<nat, nat>, pde: map<nat, nat>, c: map<nat, Page>, u: seq<bool>, k: seq<bool>, got: seq<nat>, kgot: seq<nat>)
    requires ParentOk(v, first, ppte, c0, u0, us)
    requires Standing(v, first, |v|, ppte, c0, u0, us, k0, ks, pte, pde, c, u, k, got, kgot)
    ensures forall p :: p in pte <==> first <= p < first + |v| && v[p - first]
    ensures forall p :: p in pte ==> p in ppte && ppte[p] in c0 && pte[p] in c && c[pte[p]] == c0[ppte[p]]
    ensures forall p :: p in pte ==> us <= pte[p] < us + |u0| && !u0[pte[p] - us] && forall q :: q in ppte ==> ppte[q] != pte[p]
    ensures forall q :: q in ppte ==> ppte[q] in c0 && ppte[q] in c && c[ppte[q]] == c0[ppte[q]]
    ensures PagesOk(v, first, pte, u, us)
  {
    hide FreeCount, Tabled, SamePage, Mapped;
    forall p | p in pte ensures p in ppte && ppte[p] in c0 && pte[p] in c && c[pte[p]] == c0[ppte[p]] {
      assert SamePage(p, ppte, c0, pte, c);
      PageCopied(p, ppte, c0, pte, c);
    }
    forall q | q in ppte ensures ppte[q] !in got {
      assert u0[ppte[q] - us];
    }
  }

  // ----- giving an address space back

  ghost predicate TakenBelow(m: map<nat, nat>, n: nat, f: int) {
    exists p :: p in m && p < n && m[p] == f
  }

  /** The frames of the entries below `n` have been given back, no others. */
  ghost predicate GivenBack(m: map<nat, nat>, n: nat, b0: seq<bool>, b: seq<bool>, fs: nat) {
    |b| == |b0| && forall i :: 0 <= i < |b| ==> (b[i] <==> b0[i] && !TakenBelow(m, n, fs + i))
  }

  lemma GiveBackStart(m: map<nat, nat>, b0: seq<bool>, fs: nat)
    ensures GivenBack(m, 0, b0, b0, fs)
  {
  }

  lemma GiveBackStep(m: map<nat, nat>, n: nat, b0: seq<bool>, b: seq<bool>, fs: nat)
    requires GivenBack(m, n, b0, b, fs)
    ensures n !in m ==> GivenBack(m, n + 1, b0, b, fs)
    ensures n in m && fs <= m[n] < fs + |b| ==> GivenBack(m, n + 1, b0, b[m[n] - fs := false], fs)
  {
    forall f: int ensures TakenBelow(m, n + 1, f) <==> TakenBelow(m, n, f) || (n in m && m[n] == f) {
      if n in m && m[n] == f { assert n in m && n < n + 1 && m[n] == f; }
    }
  }

  lemma {:induction false} GiveBackSkip(m: map<nat, nat>, n: nat, n': nat, b0: seq<bool>, b: seq<bool>, fs: nat)
    requires GivenBack(m, n, b0, b, fs) && n <= n' && forall p :: n <= p < n' ==> p !in m
    ensures GivenBack(m, n', b0, b, fs)
    decreases n' - n
  {
    hide GivenBack;
    if n < n' {
      GiveBackStep(m, n, b0, b, fs);
      GiveBackSkip(m, n + 1, n', b0, b, fs);
    }
  }

  ghost predicate InPool(m: map<nat, nat>, n: nat, fs: nat, len: nat) {
    forall p :: p in m && p < n ==> fs <= m[p] < fs + len
  }

  /** The page-table part of realease_prog_resource: every frame of every page goes back, then the
      frame of each table. */
  method ReleaseUserPages(mem: Memory, space: Space)
    requires mem.Valid() && forall p :: p in space.pte ==> PdeIdx(p) in space.pde
    requires InPool(space.pte, 0xc0000, mem.userPool.firstFrame, |mem.userPool.Bits()|)
    requires InPool(space.pde, 768, mem.kernelPool.firstFrame, |mem.kernelPool.Bits()|)
    modifies mem.userPool.poolBitmap.bits, mem.kernelPool.poolBitmap.bits
    ensures GivenBack(space.pte, 0xc0000, old(mem.userPool.Bits()), mem.userPool.Bits(), mem.userPool.firstFrame)
    ensures GivenBack(space.pde, 768, old(mem.kernelPool.Bits()), mem.kernelPool.Bits(), mem.kernelPool.firstFrame)
  {
    hide Unpack, TestBit, GivenBack;
    ghost var u0, k0, us, ks := mem.userPool.Bits(), mem.kernelPool.Bits(), mem.userPool.firstFrame, mem.kernelPool.firstFrame;
    GiveBackStart(space.pte, u0, us);
    GiveBackStart(space.pde, k0, ks);
    var pdeIdx := 0;
    while pdeIdx < USER_PDES
      invariant 0 <= pdeIdx <= USER_PDES
      invariant GivenBack(space.pte, 1024 * pdeIdx, u0, mem.userPool.Bits(), us) && |mem.userPool.Bits()| == |u0|
      invariant GivenBack(space.pde, pdeIdx, k0, mem.kernelPool.Bits(), ks) && |mem.kernelPool.Bits()| == |k0|
    {
      GiveBackStep(space.pde, pdeIdx, k0, mem.kernelPool.Bits(), ks);
      if pdeIdx in space.pde {
        ghost var kBits := mem.kernelPool.Bits();
        var pteIdx := 0;
        while pteIdx < 1024
          invariant 0 <= pteIdx <= 1024
          invariant GivenBack(space.pte, 1024 * pdeIdx + pteIdx, u0, mem.userPool.Bits(), us) && |mem.userPool.Bits()| == |u0|
          invariant mem.kernelPool.Bits() == kBits
        {
          var page := 1024 * pdeIdx + pteIdx;
          GiveBackStep(space.pte, page, u0, mem.userPool.Bits(), us);
          if page in space.pte {
            mem.PFree(space.pte[page], mem.userPool);
          }
          pteIdx := pteIdx + 1;
        }
        mem.PFree(space.pde[pdeIdx], mem.kernelPool);
      } else {
        NoneIn(space.pte, space.pde, pdeIdx);
        GiveBackSkip(space.pte, 1024 * pdeIdx, 1024 * pdeIdx + 1024, u0, mem.userPool.Bits(), us);
      }
      pdeIdx := pdeIdx + 1;
    }
  }

  lemma NoneIn(pte: map<nat, nat>, pde: map<nat, nat>, d: nat)
    requires (forall p :: p in pte ==> PdeIdx(p) in pde) && d !in pde
    ensures forall p :: 1024 * d <= p < 1024 * d + 1024 ==> p !in pte
  {
    forall p: nat | 1024 * d <= p < 1024 * d + 1024 ensures p !in pte {
      assert PdeIdx(p) == d;
    }
  }

  /** Frames taken one by one for the entries of a map, and given back entry by entry. */
  lemma Undone(m: map<nat, nat>, n: nat, b0: seq<bool>, b: seq<bool>, fs: nat, got: seq<nat>, b': seq<bool>)
    requires Grew(b0, b, fs, got) && GivenBack(m, n, b, b', fs)
    requires (forall g :: g in got ==> TakenBelow(m, n, g)) && forall p :: p in m ==> m[p] in got
    ensures b' == b0
  {
    hide FreeCount, Distinct;
    forall i | 0 <= i < |b0| ensures b'[i] == b0[i] {
      if TakenBelow(m, n, fs + i) {
        var p :| p in m && p < n && m[p] == fs + i;
        assert m[p] in got;
      }
    }
  }

  lemma PagesTaken(v: seq<bool>, first: nat, ppte: map<nat, nat>, c0: map<nat, Page>, pte: map<nat, nat>, c: map<nat, Page>, got: seq<nat>)
    requires Copied(v, first, |v|, ppte, c0, pte, c, got) && first + |v| <= 1024 * USER_PDES
    ensures forall g :: g in got ==> TakenBelow(pte, 1024 * USER_PDES, g)
    ensures forall p :: p in pte ==> pte[p] in got && p < 1024 * USER_PDES
  {
    hide FreeCount, SamePage;
    forall g | g in got ensures TakenBelow(pte, 1024 * USER_PDES, g) {
      assert Mapped(pte, g);
    }
  }

  lemma TablesTaken(pte: map<nat, nat>, pde: map<nat, nat>, kgot: seq<nat>)
    requires Tabled(pte, pde, kgot) && forall p :: p in pte ==> p < 1024 * USER_PDES
    ensures forall g :: g in kgot ==> TakenBelow(pde, USER_PDES, g)
    ensures forall d :: d in pde ==> pde[d] in kgot
  {
    forall g | g in kgot ensures TakenBelow(pde, USER_PDES, g) {
      assert Mapped(pde, g);
      var d :| d in pde && pde[d] == g;
      assert Reached(pte, d);
    }
  }

  /** Exit gives back exactly what fork took: both pools are as they were before. */
  lemma ExitUndoesFork(v: seq<bool>, first: nat, ppte: map<nat, nat>, c0: map<nat, Page>, u0: seq<bool>, us: nat, k0: seq<bool>, ks: nat,
                       pte: map<nat, nat>, pde: map<nat, nat>, c: map<nat, Page>, u: seq<bool>, k: seq<bool>,
                       got: seq<nat>, kgot: seq<nat>, u': seq<bool>, k': seq<bool>)
    requires Standing(v, first, |v|, ppte, c0, u0, us, k0, ks, pte, pde, c, u, k, got, kgot)
    requires first + |v| <= 0xc0000
    requires GivenBack(pte, 0xc0000, u, u', us) && GivenBack(pde, 768, k, k', ks)
    ensures u' == u0 && k' == k0
  {
    hide Grew, Copied, Tabled, GivenBack, TakenBelow;
    PagesTaken(v, first, ppte, c0, pte, c, got);
    TablesTaken(pte, pde, kgot);
    Undone(pte, 1024 * USER_PDES, u0, u, us, got, u');
    Undone(pde, USER_PDES, k0, k, ks, kgot, k');
  }
}

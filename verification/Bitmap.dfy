/** The allocation bitmap shared by every allocator of the kernel (lib/kernel/bitmap.c).

    A bitmap is a buffer of bytes. Its meaning is the sequence of its bits, bit `i` being bit
    `i % 8` of byte `i / 8`. The scan can test the first bit after the buffer, so the model
    keeps that one byte, whatever it happens to hold, at the end of the array. */
module Bitmaps {
  import opened Util

  const BITMAP_MASK: bv8 := 1

  predicate TestBit(b: bv8, k: nat)
    requires k < 8
  {
    (BITMAP_MASK << k) & b != 0
  }

  lemma SetOneBit(b: bv8, k: nat, j: nat)
    requires k < 8 && j < 8
    ensures TestBit(b | (BITMAP_MASK << k), j) == (j == k || TestBit(b, j))
  {
    BitCases(k);
    BitCases(j);
  }

  lemma ClearOneBit(b: bv8, k: nat, j: nat)
    requires k < 8 && j < 8
    ensures TestBit(b & !(BITMAP_MASK << k), j) == (j != k && TestBit(b, j))
  {
    BitCases(k);
    BitCases(j);
  }

  lemma BitCases(k: nat)
    requires k < 8
    ensures BITMAP_MASK << k == [1, 2, 4, 8, 16, 32, 64, 128][k]
  {
    assert k == 0 || k == 1 || k == 2 || k == 3 || k == 4 || k == 5 || k == 6 || k == 7;
  }

  lemma FullByte(b: bv8)
    ensures b == 0xff <==> forall k: nat :: k < 8 ==> TestBit(b, k)
  {
    forall k: nat | k < 8 { BitCases(k); }
    assert (forall k: nat :: k < 8 ==> TestBit(b, k)) ==>
        TestBit(b, 0) && TestBit(b, 1) && TestBit(b, 2) && TestBit(b, 3) &&
        TestBit(b, 4) && TestBit(b, 5) && TestBit(b, 6) && TestBit(b, 7);
  }

  /** The bits of a byte buffer. */
  ghost function Unpack(bytes: seq<bv8>): seq<bool> {
    seq(8 * |bytes|, i requires 0 <= i < 8 * |bytes| => TestBit(bytes[i / 8], i % 8))
  }

  /** A byte whose bit `k` becomes `v` and whose other bits stay. */
  ghost predicate BitReplaced(was: bv8, b: bv8, k: nat, v: bool)
    requires k < 8
  {
    forall j: nat :: j < 8 ==> TestBit(b, j) == if j == k then v else TestBit(was, j)
  }

  lemma BitWritten(b: bv8, k: nat)
    requires k < 8
    ensures BitReplaced(b, b | (BITMAP_MASK << k), k, true) && BitReplaced(b, b & !(BITMAP_MASK << k), k, false)
  {
    hide TestBit;
    var set1, cleared := b | (BITMAP_MASK << k), b & !(BITMAP_MASK << k);
    forall j: nat | j < 8
      ensures TestBit(set1, j) == (j == k || TestBit(b, j)) && TestBit(cleared, j) == (j != k && TestBit(b, j))
    {
      SetOneBit(b, k, j);
      ClearOneBit(b, k, j);
    }
  }

  lemma UnpackUpdate(bytes: seq<bv8>, i: nat, b: bv8, v: bool)
    requires i < 8 * |bytes| && BitReplaced(bytes[i / 8], b, i % 8, v)
    ensures Unpack(bytes[i / 8 := b]) == Unpack(bytes)[i := v]
  {
    hide TestBit;
    var u, w := Unpack(bytes[i / 8 := b]), Unpack(bytes)[i := v];
    forall j | 0 <= j < |u| ensures u[j] == w[j] {
      assert j == i <==> j / 8 == i / 8 && j % 8 == i % 8;
    }
  }

  lemma FirstBit(was: bv8, b: bv8, v: bool)
    requires BitReplaced(was, b, 0, v)
    ensures TestBit(b, 0) == v
  {
    hide TestBit;
  }

  lemma FullBytes(bytes: seq<bv8>, n: nat)
    requires n <= |bytes| && forall k :: 0 <= k < n ==> bytes[k] == 0xff
    ensures forall i :: 0 <= i < 8 * n ==> Unpack(bytes)[i]
  {
    FullByte(0xff);
  }

  lemma FirstClear(bytes: seq<bv8>, idxByte: nat, idxBit: nat)
    requires idxByte < |bytes| && idxBit < 8 && !TestBit(bytes[idxByte], idxBit)
    requires forall k :: 0 <= k < idxByte ==> bytes[k] == 0xff
    requires forall k: nat :: k < idxBit ==> TestBit(bytes[idxByte], k)
    ensures forall i :: 0 <= i < 8 * idxByte + idxBit ==> Unpack(bytes)[i]
    ensures !Unpack(bytes)[8 * idxByte + idxBit]
  {
    FullBytes(bytes, idxByte);
    forall i | 8 * idxByte <= i < 8 * idxByte + idxBit ensures Unpack(bytes)[i] {
      assert i / 8 == idxByte && i % 8 == i - 8 * idxByte;
    }
    var start := 8 * idxByte + idxBit;
    assert start / 8 == idxByte && start % 8 == idxBit;
  }

  // ----- what a scan is supposed to find

  ghost predicate ClearRun(s: seq<bool>, start: int, cnt: nat) {
    0 <= start && start + cnt <= |s| && forall i :: start <= i < start + cnt ==> !s[i]
  }

  /** `r` is the lowest start of `cnt` consecutive clear bits, or -1 when there is none. */
  ghost predicate IsFirstFit(s: seq<bool>, cnt: nat, r: int) {
    if r == -1 then forall q :: !ClearRun(s, q, cnt)
    else ClearRun(s, r, cnt) && forall q :: ClearRun(s, q, cnt) ==> r <= q
  }

  ghost function SetRun(s: seq<bool>, start: nat, cnt: nat, v: bool): (t: seq<bool>)
    ensures |t| == |s|
  {
    seq(|s|, i requires 0 <= i < |s| => if start <= i < start + cnt then v else s[i])
  }

  ghost function FreeCount(s: seq<bool>): nat {
    if s == [] then 0 else FreeCount(s[..|s| - 1]) + if s[|s| - 1] then 0 else 1
  }

  lemma {:induction false} FreeCountPositive(s: seq<bool>)
    ensures FreeCount(s) > 0 <==> exists i :: 0 <= i < |s| && !s[i]
  {
    if s != [] {
      var t := s[..|s| - 1];
      FreeCountPositive(t);
      if i :| 0 <= i < |t| && !t[i] { assert !s[i]; }
      if FreeCount(t) == 0 { assert forall i :: 0 <= i < |t| ==> t[i] == s[i]; }
    }
  }

  /** Taking one clear bit uses up exactly one unit of the free count. */
  lemma {:induction false} FreeCountTake(s: seq<bool>, k: nat)
    requires k < |s| && !s[k]
    ensures FreeCount(s[k := true]) == FreeCount(s) - 1
  {
    var t := s[..|s| - 1];
    if k == |s| - 1 {
      assert s[k := true][..|s| - 1] == t;
    } else {
      assert s[k := true][..|s| - 1] == t[k := true];
      FreeCountTake(t, k);
    }
  }

  /** Where the counting loop of a scan stands: `p` bits seen, the last `count` of them clear,
      and no run of `cnt` clear bits among them. */
  ghost predicate ScanState(e: seq<bool>, cnt: nat, p: nat, count: nat) {
    && count < cnt && count <= p <= |e| && ClearRun(e, p - count, count)
    && (p - count > 0 ==> e[p - count - 1])
    && forall q :: ClearRun(e, q, cnt) ==> q + cnt > p
  }

  lemma ScanStart(e: seq<bool>, cnt: nat, start: nat)
    requires cnt >= 1 && start < |e| && !e[start] && forall i :: 0 <= i < start ==> e[i]
    ensures if cnt == 1 then IsFirstFit(e, cnt, start) else ScanState(e, cnt, start + 1, 1)
  {
    assert ClearRun(e, start, 1);
    forall q | ClearRun(e, q, cnt) ensures start <= q {
      assert !e[q];
    }
  }

  lemma ScanStep(e: seq<bool>, cnt: nat, p: nat, count: nat)
    requires ScanState(e, cnt, p, count) && p < |e|
    ensures if !e[p] && count + 1 == cnt then IsFirstFit(e, cnt, p + 1 - cnt)
            else ScanState(e, cnt, p + 1, if e[p] then 0 else count + 1)
  {
    if e[p] || count + 1 < cnt {
      var c := if e[p] then 0 else count + 1;
      forall q | ClearRun(e, q, cnt) ensures q + cnt > p + 1 {
        assert q + cnt == p + 1 ==> q <= p - c < q + cnt;
      }
    }
  }

  lemma ScanEnd(e: seq<bool>, cnt: nat, count: nat)
    requires ScanState(e, cnt, |e|, count)
    ensures IsFirstFit(e, cnt, -1)
  {
  }

  /** A scan for `cnt` bits reports a run that leaves the map: the bit behind it is clear, the last
      `cnt - 1` bits are too, and no run fits inside. */
  ghost predicate LeavesMap(s: seq<bool>, guard: bool, cnt: nat) {
    !guard && cnt > 1 && ClearRun(s, |s| + 1 - cnt, cnt - 1) && forall q :: !ClearRun(s, q, cnt)
  }

  /** The scan works on the map extended by the one bit behind it. Its answer is the first-fit
      answer for the map itself unless that run leaves the map, and then it is the run that ends
      with the bit behind. */
  lemma GuardBitDecides(s: seq<bool>, guard: bool, cnt: nat, r: int)
    requires cnt >= 1 && IsFirstFit(s + [guard], cnt, r)
    requires exists i :: 0 <= i < |s| && !s[i]
    ensures IsFirstFit(s, cnt, r) <==> !LeavesMap(s, guard, cnt)
    ensures LeavesMap(s, guard, cnt) ==> r + cnt == |s| + 1
  {
    var e := s + [guard];
    assert forall q :: ClearRun(s, q, cnt) ==> ClearRun(e, q, cnt);
    forall q | ClearRun(e, q, cnt) && q + cnt <= |s| ensures ClearRun(s, q, cnt) {
      assert forall i :: q <= i < q + cnt ==> e[i] == s[i];
    }
    var last := |s| + 1 - cnt;
    if cnt == 1 {
      var i :| 0 <= i < |s| && !s[i];
      assert ClearRun(s, i, 1);
    }
    if ClearRun(e, last, cnt) {
      assert !e[|s|];
      assert forall i :: last <= i < |s| ==> e[i] == s[i];
      assert ClearRun(s, last, cnt - 1);
    }
    if !guard && ClearRun(s, last, cnt - 1) {
      assert forall i :: last <= i < |s| + 1 ==> !e[i];
    }
  }

  lemma FirstFitInside(s: seq<bool>, guard: bool, cnt: nat)
    requires cnt >= 1 && (exists i :: 0 <= i < |s| && !s[i])
    ensures cnt == 1 || guard ==> forall r :: IsFirstFit(s + [guard], cnt, r) ==> IsFirstFit(s, cnt, r)
  {
    forall r | IsFirstFit(s + [guard], cnt, r) {
      GuardBitDecides(s, guard, cnt, r);
    }
  }

  /** The failing case is real: seven pages in use, one free, a clear bit behind the map, and
      a request for two. The scan answers 7 although the map holds no run of two. */
  lemma GuardBitWitness()
    ensures var s := [true, true, true, true, true, true, true, false];
            IsFirstFit(s + [false], 2, 7) && !IsFirstFit(s, 2, 7) && IsFirstFit(s, 2, -1) && LeavesMap(s, false, 2)
  {
    var s := [true, true, true, true, true, true, true, false];
    var e := s + [false];
    assert !e[7] && !e[8] && e[6];
    forall q | q < 7 ensures !ClearRun(e, q, 2) && !ClearRun(s, q, 2) {
      if 0 <= q { assert e[q] && s[q]; }
    }
  }

  // ----- taking free places one by one

  /** Since `before`, exactly the places `got`, counted from `lo`, have been taken. */
  ghost predicate Grew(before: seq<bool>, bits: seq<bool>, lo: nat, got: seq<int>) {
    && |bits| == |before| && Distinct(got)
    && (forall g :: g in got ==> lo <= g < lo + |bits| && !before[g - lo])
    && (forall i :: 0 <= i < |bits| ==> (bits[i] <==> before[i] || lo + i in got))
    && FreeCount(bits) + |got| == FreeCount(before)
  }

  lemma GrewStart(bits: seq<bool>, lo: nat)
    ensures Grew(bits, bits, lo, [])
  {
  }

  lemma GrewStep(before: seq<bool>, bits: seq<bool>, lo: nat, got: seq<int>, x: int)
    requires Grew(before, bits, lo, got) && lo <= x < lo + |bits| && !bits[x - lo]
    ensures Grew(before, bits[x - lo := true], lo, got + [x])
  {
    FreeCountTake(bits, x - lo);
    forall i | 0 <= i < |bits| ensures bits[x - lo := true][i] <==> before[i] || lo + i in got + [x] {}
  }

  lemma FirstFitOfOne(bits: seq<bool>, r: int)
    requires IsFirstFit(bits, 1, r) && FreeCount(bits) > 0
    ensures 0 <= r < |bits| && !bits[r]
  {
    FreeCountPositive(bits);
    var i :| 0 <= i < |bits| && !bits[i];
    assert ClearRun(bits, i, 1);
  }

  class Bitmap {
    const bits: array<bv8>
    const len: nat  // btmp_bytes_len

    ghost predicate Valid() {
      bits.Length == len + 1
    }

    ghost function View(): (s: seq<bool>)
      requires Valid()
      reads bits
      ensures |s| == 8 * len
    {
      Unpack(bits[..len])
    }

    /** The bit right behind the map. */
    ghost predicate Guard()
      requires Valid()
      reads bits
    {
      TestBit(bits[len], 0)
    }

    /** What the scan sees: the map and the bit behind it. */
    ghost function Wide(): (s: seq<bool>)
      requires Valid()
      reads bits
      ensures |s| == 8 * len + 1
    {
      View() + [Guard()]
    }

    /** A zeroed map of `n` bytes with `past` lying behind it. */
    constructor (n: nat, past: bv8)
      ensures Valid() && len == n && fresh(bits)
      ensures View() == seq(8 * n, i => false) && Guard() == TestBit(past, 0)
    {
      len := n;
      bits := new bv8[n + 1](i => if i < n then 0 else past);
      new;
      forall k: nat | k < 8 { BitCases(k); }
    }

    /** A map laid over memory as it is; the last byte is the one behind the map. */
    constructor Over(memory: seq<bv8>)
      requires memory != []
      ensures Valid() && len == |memory| - 1 && fresh(bits)
      ensures View() == Unpack(memory[..len]) && Guard() == TestBit(memory[len], 0)
    {
      len := |memory| - 1;
      bits := new bv8[|memory|](i requires 0 <= i < |memory| => memory[i]);
      new;
      assert bits[..len] == memory[..len];
    }

    method ScanTest(bitIdx: nat) returns (r: bool)
      requires Valid() && bitIdx <= 8 * len
      ensures r == Wide()[bitIdx]
    {
      var byteIdx := bitIdx / 8;
      var bitOdd := bitIdx % 8;
      r := bits[byteIdx] & (BITMAP_MASK << bitOdd) != 0;
    }

    /** The first half of the scan: skip full bytes, then set bits. */
    method FirstClearBit() returns (start: nat)
      requires Valid()
      requires exists i :: 0 <= i < 8 * len && !View()[i]
      ensures start < 8 * len && !View()[start] && forall i :: 0 <= i < start ==> View()[i]
    {
      var idxByte := 0;
      while 0xff == bits[idxByte] && idxByte < len
        invariant idxByte <= len
        invariant forall k :: 0 <= k < idxByte ==> bits[k] == 0xff
      {
        idxByte := idxByte + 1;
      }
      FullBytes(bits[..len], idxByte);
      FullByte(bits[idxByte]);
      var idxBit := 0;
      while TestBit(bits[idxByte], idxBit)
        invariant idxBit < 8
        invariant forall k: nat :: k < idxBit ==> TestBit(bits[idxByte], k)
        decreases 8 - idxBit
      {
        idxBit := idxBit + 1;
      }
      FirstClear(bits[..len], idxByte, idxBit);
      start := idxByte * 8 + idxBit;
    }

    /** First fit over the map and the one bit behind it. A full map fails an assertion. */
    method Scan(cnt: nat) returns (r: int)
      requires Valid() && cnt >= 1
      requires exists i :: 0 <= i < 8 * len && !View()[i]
      ensures IsFirstFit(Wide(), cnt, r)
      ensures cnt == 1 || Guard() ==> IsFirstFit(View(), cnt, r)
    {
      hide Unpack, TestBit, IsFirstFit, ScanState, ClearRun;
      ghost var e := Wide();
      FirstFitInside(View(), Guard(), cnt);
      var start := FirstClearBit();
      ScanStart(e, cnt, start);
      var bitIdxStart: int := start;
      if cnt == 1 {
        return bitIdxStart;
      }
      var bitLeft: int := len * 8 - bitIdxStart;
      var nextBit := start + 1;
      var count := 1;
      bitIdxStart := -1;
      while bitLeft > 0
        invariant bitLeft + nextBit == |e| && 0 <= bitLeft
        invariant ScanState(e, cnt, nextBit, count)
        invariant bitIdxStart == -1
      {
        bitLeft := bitLeft - 1;
        var taken := ScanTest(nextBit);
        ScanStep(e, cnt, nextBit, count);
        if !taken {
          count := count + 1;
        } else {
          count := 0;
        }
        if count == cnt {
          bitIdxStart := nextBit - cnt + 1;
          return bitIdxStart;
        }
        nextBit := nextBit + 1;
      }
      ScanEnd(e, cnt, count);
      return bitIdxStart;
    }

    /** Nothing keeps a caller from setting the bit behind the map. */
    method Set(bitIdx: nat, value: int)
      requires Valid() && bitIdx <= 8 * len
      requires value == 0 || value == 1
      modifies bits
      ensures Wide() == old(Wide())[bitIdx := value == 1]
      ensures bitIdx < 8 * len ==> View() == old(View())[bitIdx := value == 1] && Guard() == old(Guard())
    {
      hide Unpack, TestBit, BitReplaced;
      var byteIdx := bitIdx / 8;
      var bitOdd := bitIdx % 8;
      ghost var bytes := bits[..len];
      var b := bits[byteIdx];
      BitWritten(b, bitOdd);
      if value == 1 {
        bits[byteIdx] := b | (BITMAP_MASK << bitOdd);
      } else {
        bits[byteIdx] := b & !(BITMAP_MASK << bitOdd);
      }
      if byteIdx < len {
        UnpackUpdate(bytes, bitIdx, bits[byteIdx], value == 1);
        assert bits[..len] == bytes[byteIdx := bits[byteIdx]];
      } else {
        assert bits[..len] == bytes;
        FirstBit(b, bits[byteIdx], value == 1);
      }
    }

    /** The allocation step every user of a bitmap performs: scan for `cnt` bits and set them. */
    method Take(cnt: nat) returns (start: int)
      requires Valid() && cnt >= 1
      requires FreeCount(View()) > 0
      modifies bits
      ensures IsFirstFit(old(Wide()), cnt, start)
      ensures start == -1 ==> Wide() == old(Wide())
      ensures start != -1 ==> Wide() == SetRun(old(Wide()), start, cnt, true)
    {
      hide Unpack, TestBit, Bitmap.Wide;
      FreeCountPositive(View());
      start := Scan(cnt);
      if start == -1 { return; }
      var i := 0;
      while i < cnt
        invariant i <= cnt
        invariant Wide() == SetRun(old(Wide()), start, i, true)
      {
        Set(start + i, 1);
        i := i + 1;
      }
    }

    /** Clearing a run of bits, as every release path does. */
    method Release(start: nat, cnt: nat)
      requires Valid() && start + cnt <= 8 * len + 1
      modifies bits
      ensures Wide() == SetRun(old(Wide()), start, cnt, false)
    {
      hide Unpack, TestBit, Bitmap.Wide;
      var i := 0;
      while i < cnt
        invariant i <= cnt
        invariant Wide() == SetRun(old(Wide()), start, i, false)
      {
        Set(start + i, 0);
        i := i + 1;
      }
    }
  }
}

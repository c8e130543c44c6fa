/** Bytes, 32-bit little-endian words and the disk as an array of 512-byte sectors. */
module Disks {

  const SECTOR_SIZE := 512

  type byte = x: int | 0 <= x < 256
  type u32 = x: int | 0 <= x < 0x1_0000_0000
  type Sector = s: seq<byte> | |s| == SECTOR_SIZE witness seq(SECTOR_SIZE, i => 0)

  function WordBytes(w: u32): (b: seq<byte>)
    ensures |b| == 4
  {
    [w % 256, w / 256 % 256, w / 65536 % 256, w / 16777216]
  }

  function Word(b: seq<byte>, i: nat): u32
    requires 4 * i + 4 <= |b|
  {
    FromBytes(b[4 * i], b[4 * i + 1], b[4 * i + 2], b[4 * i + 3])
  }

  function FromBytes(b0: int, b1: int, b2: int, b3: int): int {
    b0 + 256 * b1 + 65536 * b2 + 16777216 * b3
  }

  lemma Digits(w: u32)
    ensures FromBytes(w % 256, w / 256 % 256, w / 65536 % 256, w / 16777216) == w
  {
    assert w / 65536 == w / 256 / 256 && w / 16777216 == w / 65536 / 256;
  }

  function EncodeWords(ws: seq<u32>): (b: seq<byte>)
    ensures |b| == 4 * |ws|
  {
    seq(4 * |ws|, i requires 0 <= i < 4 * |ws| => WordBytes(ws[i / 4])[i % 4])
  }

  function DecodeWords(b: seq<byte>): (ws: seq<u32>)
    requires |b| % 4 == 0
    ensures |ws| == |b| / 4
  {
    seq(|b| / 4, i requires 0 <= i < |b| / 4 => Word(b, i))
  }

  lemma EncodedByte(ws: seq<u32>, i: nat, j: nat)
    requires i < |ws| && j < 4
    ensures EncodeWords(ws)[4 * i + j] == WordBytes(ws[i])[j]
  {
    assert (4 * i + j) / 4 == i && (4 * i + j) % 4 == j;
  }

  lemma WordAt(ws: seq<u32>, i: nat)
    requires i < |ws|
    ensures Word(EncodeWords(ws), i) == ws[i]
  {
    EncodedByte(ws, i, 0);
    EncodedByte(ws, i, 1);
    EncodedByte(ws, i, 2);
    EncodedByte(ws, i, 3);
    Digits(ws[i]);
  }

  /** Reading back a memory image of words yields the words. */
  lemma WordsRoundTrip(ws: seq<u32>)
    ensures DecodeWords(EncodeWords(ws)) == ws
  {
    forall i | 0 <= i < |ws| ensures DecodeWords(EncodeWords(ws))[i] == ws[i] {
      WordAt(ws, i);
    }
  }

  /** memcpy of `data` into a buffer at offset `off`. */
  function Splice(buf: seq<byte>, off: nat, data: seq<byte>): (r: seq<byte>)
    requires off + |data| <= |buf|
    ensures |r| == |buf|
    ensures forall i :: 0 <= i < |buf| ==> r[i] == if off <= i < off + |data| then data[i - off] else buf[i]
  {
    buf[..off] + data + buf[off + |data|..]
  }

  function Zeros(n: nat): (r: seq<byte>)
    ensures |r| == n && forall i :: 0 <= i < n ==> r[i] == 0
  {
    seq(n, i => 0)
  }

  /** The bytes of `cnt` consecutive sectors. */
  function Bytes(sectors: seq<Sector>, lba: nat, cnt: nat): (b: seq<byte>)
    requires lba + cnt <= |sectors|
    ensures |b| == SECTOR_SIZE * cnt
  {
    seq(SECTOR_SIZE * cnt, i requires 0 <= i < SECTOR_SIZE * cnt => sectors[lba + i / SECTOR_SIZE][i % SECTOR_SIZE])
  }

  function Put(sectors: seq<Sector>, lba: nat, buf: seq<byte>, cnt: nat): (r: seq<Sector>)
    requires lba + cnt <= |sectors| && |buf| == SECTOR_SIZE * cnt
    ensures |r| == |sectors|
  {
    seq(|sectors|, k requires 0 <= k < |sectors| =>
      if lba <= k < lba + cnt then buf[SECTOR_SIZE * (k - lba)..SECTOR_SIZE * (k - lba) + SECTOR_SIZE] else sectors[k])
  }

  class Disk {
    var sectors: seq<Sector>

    method IdeRead(lba: nat, cnt: nat) returns (buf: seq<byte>)
      requires lba + cnt <= |sectors|
      ensures buf == Bytes(sectors, lba, cnt)
    {
      buf := Bytes(sectors, lba, cnt);
    }

    method IdeWrite(lba: nat, buf: seq<byte>, cnt: nat)
      requires lba + cnt <= |sectors| && |buf| == SECTOR_SIZE * cnt
      modifies this
      ensures sectors == Put(old(sectors), lba, buf, cnt)
    {
      sectors := Put(sectors, lba, buf, cnt);
    }

    /** The common case of one sector. */
    method ReadSector(lba: nat) returns (buf: Sector)
      requires lba < |sectors|
      ensures buf == sectors[lba]
    {
      buf := IdeRead(lba, 1);
      assert buf == sectors[lba];
    }

    method WriteSector(lba: nat, buf: Sector)
      requires lba < |sectors|
      modifies this
      ensures sectors == old(sectors)[lba := buf]
    {
      IdeWrite(lba, buf, 1);
      assert buf[0..SECTOR_SIZE] == buf;
      assert sectors == old(sectors)[lba := buf];
    }
  }
}

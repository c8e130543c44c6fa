/** Directories as slotted sectors refining finite maps (fs/dir.c). */
module Dirs {
  import opened Disks
  import opened Inodes
  import opened Ownership

  const MAX_FILE_NAME_LEN := 16
  const ENTRY_SIZE := 24
  const PER_SEC := 21  // 512 / 24
  const SLOTS := 2940  // 140 * 21

  const FT_UNKNOWN: u32 := 0
  const FT_REGULAR: u32 := 1
  const FT_DIRECTORY: u32 := 2

  datatype DirEntry = DirEntry(name: string, ino: u32, ftype: u32) {
    predicate Live() {
      ftype != FT_UNKNOWN
    }

    predicate Dot() {
      name == "." || name == ".."
    }
  }

  const DEAD := DirEntry("", 0, 0)

  /** An ordinary entry for inode `ino`. */
  predicate Matches(e: DirEntry, ino: nat) {
    e.Live() && !e.Dot() && e.ino as int == ino
  }

  // ----- one slot of 24 bytes

  /** The string strcmp sees from the start of a buffer. */
  function CString(b: seq<byte>): string {
    if b == [] || b[0] == 0 then "" else [b[0] as int as char] + CString(b[1..])
  }

  predicate IsName(name: string) {
    forall i :: 0 <= i < |name| ==> 0 < name[i] as int < 256
  }

  function NameBytes(name: string): (b: seq<byte>)
    requires IsName(name)
    ensures |b| == |name|
  {
    seq<byte>(|name|, i requires 0 <= i < |name| => name[i] as int)
  }

  function EncodeEntry(e: DirEntry): (b: seq<byte>)
    requires IsName(e.name) && |e.name| <= MAX_FILE_NAME_LEN
    ensures |b| == ENTRY_SIZE
  {
    NameBytes(e.name) + Zeros(MAX_FILE_NAME_LEN - |e.name|) + EncodeWords([e.ino, e.ftype])
  }

  function DecodeEntry(b: seq<byte>): DirEntry
    requires |b| == ENTRY_SIZE
  {
    DirEntry(CString(b), Word(b, 4), Word(b, 5))
  }

  lemma {:induction false} CStringOf(name: string, rest: seq<byte>)
    requires IsName(name)
    ensures CString(NameBytes(name) + rest) == name + CString(rest)
  {
    var b := NameBytes(name) + rest;
    if name == "" {
      assert b == rest;
    } else {
      assert b[1..] == NameBytes(name[1..]) + rest;
      CStringOf(name[1..], rest);
    }
  }

  /** The 24 bytes: sixteen for the name and what is left of it, inode number, type. */
  lemma EntryLayout(e: DirEntry)
    requires IsName(e.name) && |e.name| <= MAX_FILE_NAME_LEN
    ensures |EncodeEntry(e)| == 24 && forall i :: 0 <= i < 16 ==> EncodeEntry(e)[i] == if i < |e.name| then e.name[i] as int else 0
    ensures Word(EncodeEntry(e), 4) == e.ino && Word(EncodeEntry(e), 5) == e.ftype
  {
    var b, w := EncodeEntry(e), EncodeWords([e.ino, e.ftype]);
    forall i | 0 <= i < 8 ensures b[16 + i] == w[i] {}
    WordAt([e.ino, e.ftype], 0);
    WordAt([e.ino, e.ftype], 1);
  }

  /** An entry reads back as itself exactly when its name leaves room for a terminator. A name of
      sixteen characters runs on into the inode number, unless that starts with a zero byte. */
  lemma EntryRoundTrip(e: DirEntry)
    requires IsName(e.name) && |e.name| <= MAX_FILE_NAME_LEN
    ensures DecodeEntry(EncodeEntry(e)) == e <==> |e.name| < MAX_FILE_NAME_LEN || e.ino % 256 == 0
  {
    var w := EncodeWords([e.ino, e.ftype]);
    var rest := Zeros(MAX_FILE_NAME_LEN - |e.name|) + w;
    assert EncodeEntry(e) == NameBytes(e.name) + rest;
    CStringOf(e.name, rest);
    EntryLayout(e);
    assert CString(rest) == "" <==> rest[0] == 0;
    assert e.name + CString(rest) == e.name <==> CString(rest) == "" by {
      assert |e.name + CString(rest)| == |e.name| + |CString(rest)|;
      assert e.name + "" == e.name;
    }
    EncodedByte([e.ino, e.ftype], 0, 0);
    assert w[0] == e.ino % 256;
  }

  lemma ZeroEntry(b: seq<byte>)
    requires |b| == ENTRY_SIZE && forall i :: 0 <= i < |b| ==> b[i] == 0
    ensures DecodeEntry(b) == DEAD
  {
    hide CString, Word;
    ZeroWord(b, 4);
    ZeroWord(b, 5);
    EmptyString(b);
  }

  lemma ZeroWord(b: seq<byte>, i: nat)
    requires 4 * i + 4 <= |b| && forall k :: 0 <= k < |b| ==> b[k] == 0
    ensures Word(b, i) == 0
  {
  }

  lemma EmptyString(b: seq<byte>)
    requires |b| > 0 && b[0] == 0
    ensures CString(b) == ""
  {
  }

  // ----- a directory as a sequence of slots

  function EntryIn(sec: Sector, k: nat): DirEntry
    requires k < PER_SEC
  {
    DecodeEntry(sec[ENTRY_SIZE * k..ENTRY_SIZE * k + ENTRY_SIZE])
  }

  function SlotAt(sectors: seq<Sector>, b: seq<u32>, i: nat): DirEntry
    requires |b| == ALL_BLOCKS && i < SLOTS
  {
    var lba := b[i / PER_SEC];
    if lba == 0 || lba >= |sectors| then DEAD else EntryIn(sectors[lba], i % PER_SEC)
  }

  /** The slots in the order every operation walks them; a missing block is 21 dead slots. */
  function Slots(sectors: seq<Sector>, m: BlockMap): (s: seq<DirEntry>)
    ensures |s| == SLOTS
  {
    seq(SLOTS, i requires 0 <= i < SLOTS => SlotAt(sectors, Blocks(sectors, m), i))
  }

  function LiveEntries(s: seq<DirEntry>): seq<DirEntry> {
    if s == [] then []
    else LiveEntries(s[..|s| - 1]) + if s[|s| - 1].Live() then [s[|s| - 1]] else []
  }

  predicate FileName(name: string) {
    IsName(name) && 0 < |name| < MAX_FILE_NAME_LEN
  }

  /** Unused slots are zeroed, used ones carry distinct names; `.` and `..` open the directory, and
      no two other entries name the same inode. */
  ghost predicate SlotsOk(s: seq<DirEntry>) {
    && |s| == SLOTS
    && (forall i :: 0 <= i < |s| ==> if s[i].Live() then FileName(s[i].name) else s[i] == DEAD)
    && (forall i, j :: 0 <= i < j < |s| && s[i].Live() && s[j].Live() ==> s[i].name != s[j].name)
    && (forall i, j :: 0 <= i < j < |s| && s[i].Live() && s[j].Live() && !s[i].Dot() && !s[j].Dot() ==> s[i].ino != s[j].ino)
    && s[0].name == "." && s[1].name == ".." && s[0].ftype == s[1].ftype == FT_DIRECTORY
  }

  ghost predicate DirOk(sectors: seq<Sector>, d: InodeData, lo: nat, hi: nat) {
    && lo > 0 && hi <= |sectors| && d.sectors[12] == 0 && Apart(Blocks(sectors, d.sectors), 0, lo, hi)
    && SlotsOk(Slots(sectors, d.sectors))
    && d.size == ENTRY_SIZE * |LiveEntries(Slots(sectors, d.sectors))|
    && forall j :: 1 <= j < DIRECT && d.sectors[j] != 0 ==> Occupied(Slots(sectors, d.sectors), j)
  }

  /** No sector but the first is kept without an entry in it. */
  ghost predicate Occupied(s: seq<DirEntry>, j: int) {
    exists i :: PER_SEC * j <= i < PER_SEC * j + PER_SEC && 0 <= i < |s| && s[i].Live()
  }

  // ----- the finite map

  /** The first slot with this name, or -1. */
  ghost function First(s: seq<DirEntry>, name: string): (k: int)
    ensures -1 <= k < |s|
    ensures k == -1 ==> forall i :: 0 <= i < |s| ==> s[i].name != name
    ensures k != -1 ==> s[k].name == name && forall i :: 0 <= i < k ==> s[i].name != name
  {
    if s == [] then -1
    else if s[0].name == name then 0
    else var k := First(s[1..], name); if k == -1 then -1 else k + 1
  }

  ghost predicate LiveAt(s: seq<DirEntry>, name: string) {
    exists i :: 0 <= i < |s| && s[i].Live() && s[i].name == name
  }

  ghost function Names(s: seq<DirEntry>): set<string> {
    set i | 0 <= i < |s| && s[i].Live() :: s[i].name
  }

  /** What the directory maps names to. */
  ghost function DirMap(s: seq<DirEntry>): map<string, DirEntry> {
    map name | name in Names(s) && First(s, name) >= 0 :: s[First(s, name)]
  }

  /** Looking a name up in the slots is looking it up in the map. */
  lemma LookupAgrees(s: seq<DirEntry>, name: string)
    requires SlotsOk(s) && name != ""
    ensures name in DirMap(s) <==> First(s, name) != -1
    ensures name in DirMap(s) ==> DirMap(s)[name] == s[First(s, name)] && s[First(s, name)].Live()
  {
    var k := First(s, name);
    if k != -1 {
      assert s[k].Live();
      assert s[k].name in Names(s);
    }
  }

  lemma LiveInMap(s: seq<DirEntry>, i: nat)
    requires SlotsOk(s) && i < |s| && s[i].Live()
    ensures s[i].name in DirMap(s) && DirMap(s)[s[i].name] == s[i]
  {
    hide DirMap;
    LookupAgrees(s, s[i].name);
    var k := First(s, s[i].name);
    assert k <= i && s[k].name == s[i].name;
  }

  lemma MapDomain(s: seq<DirEntry>, n: string)
    requires n in DirMap(s)
    ensures LiveAt(s, n)
  {
    assert n in Names(s);
  }

  /** Filling a dead slot under a new name adds one binding. */
  lemma AddBinding(s: seq<DirEntry>, k: nat, e: DirEntry)
    requires SlotsOk(s) && k < |s| && !s[k].Live() && e.Live() && FileName(e.name) && e.name !in DirMap(s)
    requires forall i :: 0 <= i < |s| && s[i].Live() && !s[i].Dot() ==> s[i].ino != e.ino
    ensures SlotsOk(s[k := e]) && DirMap(s[k := e]) == DirMap(s)[e.name := e]
  {
    hide DirMap;
    forall i | 0 <= i < |s| && s[i].Live() ensures s[i].name != e.name {
      LiveInMap(s, i);
    }
    assert SlotsOk(s[k := e]);
    SameElsewhere(s, k, e);
  }

  /** Zeroing a live slot removes exactly its binding. */
  lemma RemoveBinding(s: seq<DirEntry>, k: nat)
    requires SlotsOk(s) && 2 <= k < |s| && s[k].Live()
    ensures SlotsOk(s[k := DEAD]) && DirMap(s[k := DEAD]) == DirMap(s) - {s[k].name}
  {
    hide DirMap;
    assert SlotsOk(s[k := DEAD]);
    SameElsewhere(s, k, DEAD);
    LiveInMap(s, k);
    var s' := s[k := DEAD];
    forall i | 0 <= i < |s'| && s'[i].Live() ensures s'[i].name != s[k].name && s'[i].name != "" {}
    if s[k].name in DirMap(s') { MapDomain(s', s[k].name); }
    if "" in DirMap(s') { MapDomain(s', ""); }
    if "" in DirMap(s) { MapDomain(s, ""); }
    var a, b := DirMap(s), DirMap(s');
    assert b == a - {s[k].name} by {
      forall n ensures n in b <==> n in a - {s[k].name} {}
    }
  }

  /** Rewriting one slot changes the map at the two names involved and nowhere else. */
  lemma SameElsewhere(s: seq<DirEntry>, k: nat, e: DirEntry)
    requires SlotsOk(s) && k < |s| && SlotsOk(s[k := e])
    ensures var a, b := DirMap(s), DirMap(s[k := e]);
            && (e.Live() ==> e.name in b && b[e.name] == e)
            && forall n :: n != e.name && (s[k].Live() ==> n != s[k].name) ==>
                 (n in a <==> n in b) && (n in a ==> a[n] == b[n])
  {
    hide DirMap, SlotsOk;
    var s' := s[k := e];
    if e.Live() { LiveInMap(s', k); }
    forall n | n != e.name && (s[k].Live() ==> n != s[k].name)
      ensures (n in DirMap(s) <==> n in DirMap(s')) && (n in DirMap(s) ==> DirMap(s)[n] == DirMap(s')[n])
    {
      if n in DirMap(s) {
        MapDomain(s, n);
        var i :| 0 <= i < |s| && s[i].Live() && s[i].name == n;
        LiveInMap(s, i);
        LiveInMap(s', i);
      }
      if n in DirMap(s') {
        MapDomain(s', n);
        var i :| 0 <= i < |s'| && s'[i].Live() && s'[i].name == n;
        LiveInMap(s, i);
      }
    }
  }

  lemma {:induction false} LiveAppend(s: seq<DirEntry>, t: seq<DirEntry>)
    ensures LiveEntries(s + t) == LiveEntries(s) + LiveEntries(t)
  {
    if t == [] {
      assert s + t == s;
    } else {
      assert (s + t)[..|s + t| - 1] == s + t[..|t| - 1];
      LiveAppend(s, t[..|t| - 1]);
    }
  }

  lemma LiveUpdate(s: seq<DirEntry>, k: nat, e: DirEntry)
    requires k < |s|
    ensures LiveEntries(s) == LiveEntries(s[..k]) + (if s[k].Live() then [s[k]] else []) + LiveEntries(s[k + 1..])
    ensures |LiveEntries(s[k := e])| == |LiveEntries(s)| - (if s[k].Live() then 1 else 0) + if e.Live() then 1 else 0
  {
    assert s == s[..k] + [s[k]] + s[k + 1..] && s[k := e] == s[..k] + [e] + s[k + 1..];
    LiveAppend(s[..k] + [s[k]], s[k + 1..]);
    LiveAppend(s[..k], [s[k]]);
    LiveAppend(s[..k] + [e], s[k + 1..]);
    LiveAppend(s[..k], [e]);
    assert LiveEntries([e]) == LiveEntries([e][..0]) + if e.Live() then [e] else [];
    assert LiveEntries([s[k]]) == LiveEntries([s[k]][..0]) + if s[k].Live() then [s[k]] else [];
  }
}

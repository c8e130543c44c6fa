/** How the directory tree comes about: formatting, and creating and removing files and directories
    (partition_format, sys_mkdir, sys_rmdir, file_create and sys_unlink). */
module TreeOps {
  import opened Disks
  import opened Dirs
  import opened Paths
  import opened Trees
  import opened Cwd

  /** The first sector as formatting and sys_mkdir write it: "." and ".." and nothing else. */
  function NewDir(i: u32, p: u32): (s: seq<DirEntry>)
    ensures |s| == SLOTS
  {
    [DirEntry(".", i, FT_DIRECTORY), DirEntry("..", p, FT_DIRECTORY)] + seq(SLOTS - 2, j => DEAD)
  }

  const FORMATTED: Tree := map[0 := NewDir(0, 0)]

  /** Entries are made in any directory, but removed by the names of a path. */
  datatype TreeOp = Mkdir(p: u32, k: nat, name: string, i: u32)
                  | Rmdir(cs: seq<string>)
                  | Create(p: u32, k: nat, name: string, i: u32)
                  | Unlink(cs: seq<string>)

  /** Inode `i` is in use neither as a directory nor as a file. */
  ghost predicate FreeInode(t: Tree, i: u32) {
    && 0 < i < MAX_FILES && i as int !in t
    && forall d, j :: d in t && 0 <= j < |t[d]| && t[d][j].Live() && !t[d][j].Dot() ==> t[d][j].ino != i
  }

  ghost predicate CanAdd(t: Tree, p: u32, k: nat, name: string, i: u32) {
    && p in t && k < |t[p]| && !t[p][k].Live() && FileName(name) && IsComponent(name) && First(t[p], name) == -1
    && FreeInode(t, i)
  }

  predicate OnlyDots(s: seq<DirEntry>) {
    forall j :: 2 <= j < |s| ==> !s[j].Live()
  }

  lemma NoneLive(t: Tree)
    ensures forall d :: d in t ==> (OnlyDots(t[d]) <==> forall j :: 2 <= j < |t[d]| ==> t[d][j].ftype == 0)
  {
  }

  /** The first ordinary entry with this inode number, or -1. */
  function FirstEntry(s: seq<DirEntry>, i: nat): (k: int)
    ensures -1 <= k < |s|
    ensures k == -1 ==> forall j :: 0 <= j < |s| ==> !Matches(s[j], i)
    ensures k != -1 ==> Matches(s[k], i) && forall j :: 0 <= j < k ==> !Matches(s[j], i)
  {
    if s == [] then -1
    else if Matches(s[0], i) then 0
    else var k := FirstEntry(s[1..], i); if k == -1 then -1 else k + 1
  }

  /** delete_dir_entry. Without such an entry nothing changes. */
  function Deleted(s: seq<DirEntry>, i: nat): seq<DirEntry> {
    var k := FirstEntry(s, i);
    if k == -1 then s else s[k := DEAD]
  }

  /** dir_remove: the entry is deleted, if there is one, and the inode released in any case. */
  function Removed(t: Tree, p: nat, i: nat): Tree
    requires p in t
  {
    t[p := Deleted(t[p], i)] - {i}
  }

  /** sys_rmdir removes what it found: an empty directory, not the root. */
  ghost predicate CanRmdir(t: Tree, r: Outcome) {
    IsDir(r) && r.ino != 0 && r.ino in t && r.parent in t && OnlyDots(t[r.ino])
  }

  ghost predicate Enabled(t: Tree, op: TreeOp) {
    match op
    case Mkdir(p, k, name, i) => CanAdd(t, p, k, name, i)
    case Create(p, k, name, i) => CanAdd(t, p, k, name, i)
    case Rmdir(cs) => Names16(cs) && CanRmdir(t, Search(t, cs))
    case Unlink(cs) => Names16(cs) && var r := Search(t, cs); r.Found? && r.ftype == FT_REGULAR && r.parent in t
  }

  ghost function After(t: Tree, op: TreeOp): Tree
    requires Enabled(t, op)
  {
    match op
    case Mkdir(p, k, name, i) => t[p := t[p][k := DirEntry(name, i, FT_DIRECTORY)]][i as int := NewDir(i, p)]
    case Create(p, k, name, i) => t[p := t[p][k := DirEntry(name, i, FT_REGULAR)]]
    case Rmdir(cs) => Removed(t, Search(t, cs).parent, Search(t, cs).ino)
    case Unlink(cs) => var r := Search(t, cs); t[r.parent := Deleted(t[r.parent], r.ino)]
  }

  /** The operation is enabled and leads from `t` to `u`. */
  ghost predicate Does(t: Tree, op: TreeOp, u: Tree) {
    Enabled(t, op) && u == After(t, op)
  }

  function RankAfter(rank: map<nat, nat>, op: TreeOp): map<nat, nat> {
    match op
    case Mkdir(p, k, name, i) => if p in rank then rank[i as int := rank[p] + 1] else rank
    case _ => rank
  }

  lemma NewDirOk(i: u32, p: u32)
    ensures SlotsOk(NewDir(i, p)) && OnlyDots(NewDir(i, p))
    ensures NewDir(i, p)[0] == DirEntry(".", i, FT_DIRECTORY) && NewDir(i, p)[1] == DirEntry("..", p, FT_DIRECTORY)
  {
    var s := NewDir(i, p);
    assert forall j :: 2 <= j < |s| ==> s[j] == DEAD;
  }

  /** Formatting yields a well-formed tree. */
  lemma FormatOk()
    ensures TreeOk(FORMATTED, map[0 := 0])
  {
    NewDirOk(0, 0);
    hide SlotsOk, NewDir;
  }

  /** What changing slot `k` of directory `p` leaves in place elsewhere. */
  lemma SlotChange(t: Tree, rank: map<nat, nat>, p: u32, k: nat, e: DirEntry)
    requires TreeOk(t, rank) && p in t && 2 <= k < |t[p]|
    ensures var t' := t[p := t[p][k := e]];
            forall d :: d in t ==> |t'[d]| == |t[d]| == SLOTS && t'[d][0] == t[d][0] && t'[d][1] == t[d][1]
  {
    hide TreeOk;
    forall d | d in t ensures |t[d]| == SLOTS { DirFacts(t, rank, d); DotSlots(t[d]); }
  }

  lemma UsedSlot(t: Tree, rank: map<nat, nat>, p: u32, k: nat)
    requires TreeOk(t, rank) && p in t && k < |t[p]|
    requires !t[p][k].Live() || (t[p][k].Live() && !t[p][k].Dot())
    ensures k >= 2
  {
    hide TreeOk;
    DirFacts(t, rank, p);
    DotSlots(t[p]);
    DirFactsDot(t[p]);
  }

  lemma DirFactsDot(s: seq<DirEntry>)
    requires SlotsOk(s)
    ensures s[0].Dot() && s[1].Dot()
  {
  }

  lemma AddedSlots(t: Tree, rank: map<nat, nat>, p: u32, k: nat, name: string, i: u32, ftype: u32)
    requires TreeOk(t, rank) && CanAdd(t, p, k, name, i) && ftype != FT_UNKNOWN
    ensures SlotsOk(t[p][k := DirEntry(name, i, ftype)])
  {
    hide TreeOk, First;
    DirFacts(t, rank, p);
    LookupAgrees(t[p], name);
    AddBinding(t[p], k, DirEntry(name, i, ftype));
  }

  lemma RemovedSlots(t: Tree, rank: map<nat, nat>, p: u32, k: nat)
    requires TreeOk(t, rank) && p in t && 2 <= k < |t[p]| && t[p][k].Live()
    ensures SlotsOk(t[p][k := DEAD])
  {
    hide TreeOk;
    DirFacts(t, rank, p);
    RemoveBinding(t[p], k);
  }

  /** Directories keep their dot entries; which numbers are directories may change only at `i`. */
  ghost predicate SameDots(t: Tree, t': Tree, i: nat) {
    && (forall d :: d in t && d != i ==> d in t' && |t'[d]| == |t[d]| == SLOTS && t'[d][0] == t[d][0] && t'[d][1] == t[d][1])
    && (forall d :: d in t' && d != i ==> d in t)
  }

  lemma EntryKept(t: Tree, t': Tree, i: nat, d: nat, e: DirEntry)
    requires EntryOk(t, d, e) && SameDots(t, t', i) && (e.Dot() || e.ino as int != i)
    ensures EntryOk(t', d, e)
  {
  }

  lemma DirKept(t: Tree, rank: map<nat, nat>, t': Tree, i: nat, d: nat)
    requires TreeOk(t, rank) && d in t && d in t' && d != i && SameDots(t, t', i) && SlotsOk(t'[d]) && |t[d]| == SLOTS
    requires t[d][1].ino as int != i
    requires forall j :: 0 <= j < |t'[d]| && t'[d][j].Live() ==>
               (0 <= j < |t[d]| && t'[d][j] == t[d][j] && (t[d][j].Dot() || t[d][j].ino as int != i)) || EntryOk(t', d, t'[d][j])
    ensures DirIn(t', d)
  {
    hide SlotsOk, TreeOk, SameDots, EntryOk;
    DirFacts(t, rank, d);
    forall j | 0 <= j < |t'[d]| && t'[d][j].Live() ensures EntryOk(t', d, t'[d][j]) {
      if !EntryOk(t', d, t'[d][j]) { EntryKept(t, t', i, d, t[d][j]); }
    }
    DotsSame(t, t', i, d);
  }

  lemma DotsSame(t: Tree, t': Tree, i: nat, d: nat)
    requires SameDots(t, t', i) && d in t && d != i
    ensures d in t' && |t'[d]| == |t[d]| == SLOTS && t'[d][0] == t[d][0] && t'[d][1] == t[d][1]
    ensures t[d][1].ino as int in t && t[d][1].ino as int != i ==> t[d][1].ino as int in t'
  {
  }

  lemma HungKept(t: Tree, rank: map<nat, nat>, t': Tree, rank': map<nat, nat>, i: nat, d: nat)
    requires TreeOk(t, rank) && d in t && d != i && SameDots(t, t', i) && |t[d]| == SLOTS && t[d][1].ino as int != i
    requires forall x :: x in t && x != i ==> x in rank && x in rank' && rank'[x] == rank[x]
    requires d != 0 ==> |t[d]| == SLOTS && HasChild(t', Parent(t, d), d)
    ensures Hung(t', rank', d)
  {
    hide SlotsOk, TreeOk, SameDots, DirIn;
    DirFacts(t, rank, d);
    Up(t, rank, d);
    DotsSame(t, t', i, d);
  }

  lemma CreateKeepsTree(t: Tree, rank: map<nat, nat>, p: u32, k: nat, name: string, i: u32)
    requires TreeOk(t, rank) && CanAdd(t, p, k, name, i)
    ensures TreeOk(After(t, Create(p, k, name, i)), rank)
  {
    hide SlotsOk, TreeOk, DirIn, Hung, FileName, First, LinkedOnce;
    UsedSlot(t, rank, p, k);
    var e := DirEntry(name, i, FT_REGULAR);
    var t' := t[p as int := t[p][k := e]];
    SlotChange(t, rank, p, k, e);
    AddedSlots(t, rank, p, k, name, i, FT_REGULAR);
    RootIn(t, rank);
    AllRanked(t, rank);
    forall d | d in t' ensures DirIn(t', d) && Hung(t', rank, d) {
      DirFacts(t, rank, d);
      Up(t, rank, d);
      DirKept(t, rank, t', i, d);
      if d != 0 { ChildKept(t, rank, p, k, e, d); }
      HungKept(t, rank, t', rank, i, d);
    }
    FilesLinkedOnce(t, rank);
    FreeIsNoFile(t, rank, i);
    OneNewFile(t, t', p, k, i);
    TreeFrom(t', rank);
  }

  lemma TreeFrom(t: Tree, rank: map<nat, nat>)
    requires 0 in t && (forall d :: d in t ==> DirIn(t, d) && Hung(t, rank, d)) && LinkedOnce(t)
    ensures TreeOk(t, rank)
  {
  }

  lemma FilesLinkedOnce(t: Tree, rank: map<nat, nat>)
    requires TreeOk(t, rank)
    ensures LinkedOnce(t)
  {
    hide DirIn, Hung;
  }

  /** Every file entry of the new tree was one before. */
  lemma NoNewFiles(t: Tree, t': Tree)
    requires LinkedOnce(t)
    requires forall d, j :: IsFile(t', d, j) ==> IsFile(t, d, j) && t'[d][j] == t[d][j]
    ensures LinkedOnce(t')
  {
    forall d, j, e, l | IsFile(t', d, j) && IsFile(t', e, l) && t'[d][j].ino == t'[e][l].ino ensures d == e && j == l {
      assert IsFile(t, d, j) && IsFile(t, e, l);
    }
  }

  /** The one new file entry carries a number no entry carried. */
  lemma OneNewFile(t: Tree, t': Tree, p: nat, k: nat, i: u32)
    requires LinkedOnce(t) && p in t' && k < |t'[p]| && t'[p][k].ino == i
    requires forall d, j :: IsFile(t', d, j) && (d != p || j != k) ==> IsFile(t, d, j) && t'[d][j] == t[d][j]
    requires forall d, j :: IsFile(t, d, j) ==> t[d][j].ino != i
    ensures LinkedOnce(t')
  {
    forall d, j, e, l | IsFile(t', d, j) && IsFile(t', e, l) && t'[d][j].ino == t'[e][l].ino ensures d == e && j == l {
      if (d != p || j != k) && (e != p || l != k) { assert IsFile(t, d, j) && IsFile(t, e, l); }
    }
  }

  /** A free number is not that of any file. */
  lemma FreeIsNoFile(t: Tree, rank: map<nat, nat>, i: u32)
    requires TreeOk(t, rank) && FreeInode(t, i)
    ensures forall d, j :: IsFile(t, d, j) ==> t[d][j].ino != i
  {
    hide TreeOk;
    forall d, j | IsFile(t, d, j) ensures t[d][j].ino != i {
      DirFacts(t, rank, d);
      FileNotDot(t[d], j);
    }
  }

  lemma FileNotDot(s: seq<DirEntry>, j: nat)
    requires SlotsOk(s) && j < |s| && s[j].ftype == FT_REGULAR
    ensures s[j].Live() && !s[j].Dot()
  {
    DotSlots(s);
    DotNames(s, j);
    DotFound(s, ".");
  }

  lemma NameNotDot(s: seq<DirEntry>, name: string)
    requires SlotsOk(s) && First(s, name) == -1
    ensures name != "." && name != ".."
  {
    assert s[0].name == "." && s[1].name == "..";
  }

  /** A slot that named no directory was not what some child hung on. */
  lemma ChildKept(t: Tree, rank: map<nat, nat>, p: u32, k: nat, e: DirEntry, d: nat)
    requires TreeOk(t, rank) && p in t && k < |t[p]| && d in t && d != 0 && !IsChild(t[p][k], d)
    ensures |t[d]| == SLOTS && HasChild(t[p as int := t[p][k := e]], Parent(t, d), d)
  {
    hide TreeOk;
    Up(t, rank, d);
    var q := Parent(t, d);
    var j :| 0 <= j < |t[q]| && IsChild(t[q][j], d);
    assert q == p ==> j != k;
    assert IsChild(t[p as int := t[p][k := e]][q][j], d);
  }

  lemma AllRanked(t: Tree, rank: map<nat, nat>)
    requires TreeOk(t, rank)
    ensures forall x :: x in t ==> x in rank
  {
    hide TreeOk;
    forall x | x in t ensures x in rank { Up(t, rank, x); }
  }

  const NO_INODE := 0x1_0000_0000  // no 32-bit field holds this

  lemma FileGone(t: Tree, rank: map<nat, nat>, p: u32, k: nat)
    requires TreeOk(t, rank) && p in t && 2 <= k < |t[p]| && t[p][k].ftype == FT_REGULAR
    ensures TreeOk(t[p as int := t[p][k := DEAD]], rank)
  {
    hide SlotsOk, TreeOk, DirIn, Hung, LinkedOnce;
    var t' := t[p as int := t[p][k := DEAD]];
    SlotChange(t, rank, p, k, DEAD);
    RemovedSlots(t, rank, p, k);
    RootIn(t, rank);
    AllRanked(t, rank);
    forall d | d in t' ensures DirIn(t', d) && Hung(t', rank, d) {
      DirFacts(t, rank, d);
      Up(t, rank, d);
      DirKept(t, rank, t', NO_INODE, d);
      if d != 0 { ChildKept(t, rank, p, k, DEAD, d); }
      HungKept(t, rank, t', rank, NO_INODE, d);
    }
    FilesLinkedOnce(t, rank);
    NoNewFiles(t, t');
    TreeFrom(t', rank);
  }

  lemma MkdirKeepsTree(t: Tree, rank: map<nat, nat>, p: u32, k: nat, name: string, i: u32)
    requires TreeOk(t, rank) && CanAdd(t, p, k, name, i)
    ensures TreeOk(After(t, Mkdir(p, k, name, i)), RankAfter(rank, Mkdir(p, k, name, i)))
  {
    hide SlotsOk, TreeOk, DirIn, Hung, FileName, First, NewDir, LinkedOnce;
    UsedSlot(t, rank, p, k);
    var e := DirEntry(name, i, FT_DIRECTORY);
    var t1 := t[p as int := t[p][k := e]];
    var t' := t1[i as int := NewDir(i, p)];
    SlotChange(t, rank, p, k, e);
    AddedSlots(t, rank, p, k, name, i, FT_DIRECTORY);
    RootIn(t, rank);
    AllRanked(t, rank);
    DirFacts(t, rank, p);
    var rank' := rank[i as int := rank[p as int] + 1];
    NewDirIn(t', p, i);
    NameNotDot(t[p], name);
    assert p != i && t'[p as int] == t[p][k := e];
    NewChild(t', rank', p, k, i);
    forall d | d in t' && d != i as int ensures DirIn(t', d) && Hung(t', rank', d) {
      DirFacts(t, rank, d);
      Up(t, rank, d);
      DirKept(t, rank, t', i, d);
      if d != 0 {
        ChildKept(t, rank, p, k, e, d);
        assert HasChild(t', Parent(t, d), d);
      }
      HungKept(t, rank, t', rank', i, d);
    }
    FilesLinkedOnce(t, rank);
    NoFilesInNewDir(i, p);
    NoNewFiles(t, t');
    TreeFrom(t', rank');
  }

  lemma NoFilesInNewDir(i: u32, p: u32)
    ensures forall j :: 0 <= j < |NewDir(i, p)| ==> NewDir(i, p)[j].ftype != FT_REGULAR
  {
  }

  lemma NewDirIn(t: Tree, p: u32, i: u32)
    requires i as int in t && t[i] == NewDir(i, p) && p as int in t && 0 < i < MAX_FILES
    ensures DirIn(t, i) && Parent(t, i) == p && |t[i]| == SLOTS
  {
    NewDirOk(i, p);
    hide SlotsOk, NewDir;
  }

  lemma NewChild(t: Tree, rank: map<nat, nat>, p: u32, k: nat, i: u32)
    requires p as int in t && k < |t[p]| && IsChild(t[p][k], i) && i as int in t && Parent(t, i) == p && i != 0
    requires p as int in rank && i as int in rank && rank[i as int] == rank[p as int] + 1
    ensures Hung(t, rank, i)
  {
    assert HasChild(t, p, i);
  }

  ghost function WithoutDir(t: Tree, p: nat, k: nat, i: nat): Tree
    requires p in t && k < |t[p]|
  {
    t[p := t[p][k := DEAD]] - {i}
  }

  /** An empty directory goes together with its entry. */
  lemma DirGone(t: Tree, rank: map<nat, nat>, p: u32, k: nat, i: u32)
    requires p as int in t && i as int in t && OnlyDots(t[i]) && k < |t[p]| && IsChild(t[p][k], i)
    requires TreeOk(t, rank)
    ensures TreeOk(WithoutDir(t, p, k, i), rank)
  {
    hide SlotsOk, TreeOk, DirIn, Hung, OnlyDots, LinkedOnce;
    UsedSlot(t, rank, p, k);
    var t' := t[p as int := t[p][k := DEAD]] - {i as int};
    SlotChange(t, rank, p, k, DEAD);
    RemovedSlots(t, rank, p, k);
    RootIn(t, rank);
    AllRanked(t, rank);
    LinkFacts(t, rank, p, k);
    forall d | d in t' ensures DirIn(t', d) && Hung(t', rank, d) {
      DirFacts(t, rank, d);
      Up(t, rank, d);
      NoChildren(t, rank, i, d);
      OnlyLink(t, rank, p, k, i, d);
      DirKept(t, rank, t', i, d);
      if d != 0 {
        ChildKept(t, rank, p, k, DEAD, d);
        assert HasChild(t', Parent(t, d), d);
      }
      HungKept(t, rank, t', rank, i, d);
    }
    FilesLinkedOnce(t, rank);
    NoNewFiles(t, t');
    TreeFrom(t', rank);
  }

  lemma LinkFacts(t: Tree, rank: map<nat, nat>, p: nat, k: nat)
    requires TreeOk(t, rank) && p in t && k < |t[p]| && t[p][k].ftype == FT_DIRECTORY && !t[p][k].Dot()
    ensures t[p][k].ino != 0 && t[p][k].ino as int in t && Parent(t, t[p][k].ino) == p
  {
    hide TreeOk, SlotsOk;
    DirFacts(t, rank, p);
    assert EntryOk(t, p, t[p][k]);
  }

  /** A directory holding only its dot entries is nobody's parent. */
  lemma NoChildren(t: Tree, rank: map<nat, nat>, i: nat, d: nat)
    requires TreeOk(t, rank) && i in t && OnlyDots(t[i]) && d in t && i != 0
    ensures Parent(t, d) != i
  {
    hide TreeOk;
    Up(t, rank, d);
    RootIn(t, rank);
    DirFacts(t, rank, i);
    DirFactsDot(t[i]);
  }

  /** Slot `k` of `p` is the only ordinary entry for directory `i`. */
  lemma OnlyLink(t: Tree, rank: map<nat, nat>, p: nat, k: nat, i: nat, d: nat)
    requires TreeOk(t, rank) && p in t && k < |t[p]| && IsChild(t[p][k], i) && d in t && i in t
    ensures forall j :: 0 <= j < |t[d]| && t[d][j].Live() && !t[d][j].Dot() && (d != p || j != k) ==> t[d][j].ino as int != i
  {
    hide TreeOk;
    DirFacts(t, rank, p);
    DirFacts(t, rank, d);
    LinkFacts(t, rank, p, k);
    forall j | 0 <= j < |t[d]| && t[d][j].Live() && !t[d][j].Dot() && t[d][j].ino as int == i ensures d == p && j == k {
      assert EntryOk(t, d, t[d][j]);
    }
  }

  // ----- removing by path

  /** How the walk over a path that leads somewhere other than to the root ends. */
  lemma LastStep(t: Tree, rank: map<nat, nat>, cs: seq<string>)
    requires TreeOk(t, rank) && Names16(cs) && Search(t, cs).Found? && Search(t, cs).ino != 0
    ensures cs != []
    ensures var d := Search(t, cs[..|cs| - 1]);
            IsDir(d) && d.ino in t ==> Search(t, cs) == Step(t, d.ino, cs[|cs| - 1], |cs|) && Search(t, cs).parent == d.ino
    ensures IsDir(Search(t, cs)) ==> var d := Search(t, cs[..|cs| - 1]); IsDir(d) && d.ino in t
  {
    hide TreeOk;
    SearchKinds(t, rank, cs[..|cs| - 1]);
  }

  /** The entry a name leads to is the only one with its inode number. */
  lemma EntryOfStep(t: Tree, rank: map<nat, nat>, d: nat, c: string, n: nat)
    requires TreeOk(t, rank) && d in t && c != "" && c != "." && c != ".." && Step(t, d, c, n).Found?
    ensures var k, r := First(t[d], c), Step(t, d, c, n);
            && k != -1 && r.ino as int == t[d][k].ino as int && r.ftype == t[d][k].ftype
            && FirstEntry(t[d], r.ino) == k && d < MAX_FILES && |t[d]| == SLOTS
            && if r.ftype == FT_DIRECTORY then IsChild(t[d][k], r.ino) && r.ino in t else IsFile(t, d, k) && k >= 2
  {
    hide TreeOk, First, FirstEntry;
    StepKinds(t, rank, d, c, n);
    Up(t, rank, d);
    DirFacts(t, rank, d);
    LookupAgrees(t[d], c);
    var k, r := First(t[d], c), Step(t, d, c, n);
    NamedSlot(t[d], k, c);
    assert Matches(t[d][k], r.ino);
    var j := FirstEntry(t[d], r.ino);
    if r.ftype == FT_DIRECTORY {
      OnlyLink(t, rank, d, k, r.ino, d);
    } else {
      SameNumberSameFile(t, rank, d, j, k);
    }
  }

  lemma NamedSlot(s: seq<DirEntry>, k: nat, c: string)
    requires SlotsOk(s) && k < |s| && s[k].name == c && c != "" && c != "." && c != ".."
    ensures s[k].Live() && !s[k].Dot() && k >= 2
  {
  }

  lemma SameNumberSameFile(t: Tree, rank: map<nat, nat>, d: nat, j: nat, k: nat)
    requires TreeOk(t, rank) && IsFile(t, d, k) && j < |t[d]| && t[d][j].Live() && !t[d][j].Dot() && t[d][j].ino == t[d][k].ino
    requires t[d][k].ino as int !in t
    ensures j == k
  {
    hide Hung, SlotsOk;
    FilesLinkedOnce(t, rank);
    assert EntryOk(t, d, t[d][j]);
    assert IsFile(t, d, j);
  }

  /** Unlinking keeps the tree well formed, whatever names follow the file in the path. */
  lemma {:induction false} UnlinkKeepsTree(t: Tree, rank: map<nat, nat>, cs: seq<string>)
    requires TreeOk(t, rank) && Enabled(t, Unlink(cs))
    ensures TreeOk(After(t, Unlink(cs)), rank)
  {
    hide TreeOk, FirstEntry, First;
    var front, r := cs[..|cs| - 1], Search(t, cs);
    var d := Search(t, front);
    SearchKinds(t, rank, front);
    if IsDir(d) {
      StepKinds(t, rank, d.ino, cs[|cs| - 1], |cs|);
      EntryOfStep(t, rank, d.ino, cs[|cs| - 1], |cs|);
      FileGone(t, rank, d.ino as u32, First(t[d.ino], cs[|cs| - 1]));
    } else {
      UnlinkKeepsTree(t, rank, front);
    }
  }

  /** A path to an empty directory other than the root does not end in "..": the directory's own
      parent would not be empty. */
  lemma NotUp(t: Tree, rank: map<nat, nat>, d: nat, n: nat)
    requires TreeOk(t, rank) && d in t
    requires Step(t, d, "..", n).Found? && Step(t, d, "..", n).ino in t && Step(t, d, "..", n).ino != 0
    ensures !OnlyDots(t[Step(t, d, "..", n).ino])
  {
    hide TreeOk, OnlyDots;
    StepKinds(t, rank, d, "..", n);
    var i := Step(t, d, "..", n).ino;
    if OnlyDots(t[i]) { NoChildren(t, rank, i, d); }
  }

  /** The directory's entry in its parent is left behind, and names an inode that is free. */
  lemma DanglingEntry(t: Tree, rank: map<nat, nat>, i: nat, rank': map<nat, nat>)
    requires TreeOk(t, rank) && i in t && i != 0
    ensures !TreeOk(t - {i}, rank')
  {
    hide TreeOk;
    Up(t, rank, i);
    var q, t' := Parent(t, i), t - {i};
    var k :| 0 <= k < |t[q]| && IsChild(t[q][k], i);
    assert q in t' && t'[q][k] == t[q][k];
    if TreeOk(t', rank') { LinkFacts(t', rank', q, k); }
  }

  ghost predicate EndsInDot(cs: seq<string>) {
    cs != [] && cs[|cs| - 1] == "."
  }

  /** Removing an empty directory keeps the tree well formed if and only if the path to it does not
      end in ".": for such a path the directory is searched for its own entry, finds none, and is
      released all the same. */
  lemma RmdirKeepsTree(t: Tree, rank: map<nat, nat>, cs: seq<string>)
    requires TreeOk(t, rank) && Enabled(t, Rmdir(cs))
    ensures !EndsInDot(cs) ==> TreeOk(After(t, Rmdir(cs)), rank)
    ensures EndsInDot(cs) ==> forall rank' :: !TreeOk(After(t, Rmdir(cs)), rank')
  {
    hide TreeOk, FirstEntry, First, OnlyDots, Step;
    var r := Search(t, cs);
    LastStep(t, rank, cs);
    var c, d := cs[|cs| - 1], r.parent;
    assert Names16(cs) && c != "";
    StepKinds(t, rank, d, c, |cs|);
    if c == "." {
      assert After(t, Rmdir(cs)) == t - {d};
      forall rank' ensures !TreeOk(t - {d}, rank') { DanglingEntry(t, rank, d, rank'); }
    } else if c == ".." {
      NotUp(t, rank, d, |cs|);
    } else {
      EntryOfStep(t, rank, d, c, |cs|);
      Up(t, rank, r.ino);
      DirGone(t, rank, d as u32, First(t[d], c), r.ino as u32);
    }
  }

  lemma OpKeepsTree(t: Tree, rank: map<nat, nat>, op: TreeOp)
    requires TreeOk(t, rank) && Enabled(t, op)
    ensures ThroughDot(op) ==> forall rank' :: !TreeOk(After(t, op), rank')
    ensures !ThroughDot(op) ==> TreeOk(After(t, op), RankAfter(rank, op))
  {
    hide TreeOk, EndsInDot;
    match op
    case Mkdir(p, k, name, i) => MkdirKeepsTree(t, rank, p, k, name, i);
    case Create(p, k, name, i) => CreateKeepsTree(t, rank, p, k, name, i);
    case Rmdir(cs) => RmdirKeepsTree(t, rank, cs);
    case Unlink(cs) => UnlinkKeepsTree(t, rank, cs);
  }

  ghost predicate WellFormed(t: Tree) {
    exists rank :: TreeOk(t, rank)
  }

  lemma FormattedOk()
    ensures WellFormed(FORMATTED)
  {
    hide TreeOk;
    FormatOk();
  }

  ghost predicate ThroughDot(op: TreeOp) {
    op.Rmdir? && EndsInDot(op.cs)
  }

  /** A run of operations from a freshly formatted partition, each enabled where it is made. */
  ghost predicate Run(trees: seq<Tree>, ops: seq<TreeOp>) {
    && |trees| == |ops| + 1 && trees[0] == FORMATTED
    && forall n :: 0 <= n < |ops| ==> Does(trees[n], ops[n], trees[n + 1])
  }

  lemma OpExact(t: Tree, op: TreeOp)
    requires WellFormed(t) && Enabled(t, op)
    ensures WellFormed(After(t, op)) <==> !ThroughDot(op)
  {
    hide TreeOk, Enabled, After, ThroughDot;
    var rank :| TreeOk(t, rank);
    OpKeepsTree(t, rank, op);
  }

  ghost predicate AllWellFormed(trees: seq<Tree>) {
    forall n :: 0 <= n < |trees| ==> WellFormed(trees[n])
  }

  /** Every tree along a run is well formed if and only if no directory was removed by a path
      ending in ".". So everything proved of lookup and getcwd holds in every such run. */
  lemma {:induction false} RunsKeepTree(trees: seq<Tree>, ops: seq<TreeOp>)
    requires Run(trees, ops)
    ensures AllWellFormed(trees) <==> forall n :: 0 <= n < |ops| ==> !ThroughDot(ops[n])
    decreases |ops|
  {
    hide TreeOk, Enabled, After, ThroughDot, WellFormed;
    if ops == [] {
      FormattedOk();
    } else {
      var n := |ops| - 1;
      var trees', ops' := trees[..n + 1], ops[..n];
      RunsKeepTree(trees', ops');
      AllButLast(trees);
      assert Does(trees[n], ops[n], trees[n + 1]);
      if WellFormed(trees[n]) { OpExact(trees[n], ops[n]); }
      assert forall m :: 0 <= m < n ==> ops'[m] == ops[m];
    }
  }

  lemma AllButLast(trees: seq<Tree>)
    requires |trees| >= 2
    ensures AllWellFormed(trees) <==> AllWellFormed(trees[..|trees| - 1]) && WellFormed(trees[|trees| - 1])
    ensures AllWellFormed(trees[..|trees| - 1]) ==> WellFormed(trees[|trees| - 2])
  {
    hide WellFormed;
    var front := trees[..|trees| - 1];
    assert front[|trees| - 2] == trees[|trees| - 2];
    assert forall m :: 0 <= m < |front| ==> front[m] == trees[m];
  }

  /** A new directory's slots hold no name but the dots. */
  lemma NewDirNames(i: u32, p: u32, name: string)
    requires name != "" && name[0] != '.'
    ensures var s := NewDir(i, p);
            |s| == SLOTS && s[0].Dot() && s[1].Dot() && !s[2].Live()
            && forall j :: 0 <= j < |s| ==> s[j].name != name && (s[j].Live() ==> s[j].Dot())
  {
    var s := NewDir(i, p);
    NewDirOk(i, p);
    assert forall j :: 2 <= j < |s| ==> s[j] == DEAD;
    hide NewDir, SlotsOk;
    assert "."[0] == '.' && ".."[0] == '.';
  }

  /** The formatted tree takes a first entry, in slot 2 of the root. */
  lemma FirstEntryFits(name: string)
    requires FileName(name) && IsComponent(name) && name[0] != '.'
    ensures CanAdd(FORMATTED, 0, 2, name, 1)
  {
    hide NewDir;
    NewDirNames(0, 0, name);
    assert FORMATTED[0] == NewDir(0, 0);
  }

  lemma FindFirstEntry(name: string, ftype: u32)
    requires name != "" && name[0] != '.'
    ensures First(NewDir(0, 0)[2 := DirEntry(name, 1, ftype)], name) == 2
  {
    hide NewDir, First;
    NewDirNames(0, 0, name);
    var s := NewDir(0, 0)[2 := DirEntry(name, 1, ftype)];
    var k := First(s, name);
    assert s[2].name == name;
    assert s[0] == NewDir(0, 0)[0] && s[1] == NewDir(0, 0)[1];
  }

  /** The shortest run that breaks the tree: mkdir "/a", then rmdir "/a/.". */
  lemma RmdirDotWitness()
    ensures var mk, rm := Mkdir(0, 2, "a", 1), Rmdir(["a", "."]);
            && Enabled(FORMATTED, mk) && Enabled(After(FORMATTED, mk), rm)
            && Run([FORMATTED, After(FORMATTED, mk), After(After(FORMATTED, mk), rm)], [mk, rm])
            && !WellFormed(After(After(FORMATTED, mk), rm))
  {
    hide NewDir, SlotsOk, TreeOk, First, OnlyDots, CanAdd, Removed;
    var mk, rm := Mkdir(0, 2, "a", 1), Rmdir(["a", "."]);
    FirstEntryFits("a");
    FormatOk();
    OpKeepsTree(FORMATTED, map[0 := 0], mk);
    FindFirstEntry("a", FT_DIRECTORY);
    NewDirOk(1, 0);
    var t := After(FORMATTED, mk);
    assert t[0] == NewDir(0, 0)[2 := DirEntry("a", 1, FT_DIRECTORY)] && t[1] == NewDir(1, 0);
    assert ["a", "."][..1] == ["a"] && ["a"][..0] == [];
    assert Search(t, ["a"]) == Found(1, FT_DIRECTORY, 0);
    StepKinds(t, RankAfter(map[0 := 0], mk), 1, ".", 2);
    OpKeepsTree(t, RankAfter(map[0 := 0], mk), rm);
  }

  // ----- sys_rmdir

  /** Panic is a failing assertion. Astray: the number was never set, and no directory has it. */
  datatype RmdirResult = Panic | Answer(ret: int) | Astray

  /** What sys_rmdir makes of what the lookup found. */
  ghost predicate RmdirDone(t: Tree, s: Outcome, r: RmdirResult, t': Tree) {
    && (r == Panic <==> s.Found? && s.ino == 0)
    && (r == Astray <==> IsDir(s) && s.ino != 0 && s.ino !in t)
    && (r == Answer(0) <==> CanRmdir(t, s))
    && (r.Answer? ==> r.ret == 0 || r.ret == -1)
    && t' == if CanRmdir(t, s) then Removed(t, s.parent, s.ino) else t
  }

  /** What the lookup of a path of several slashes comes to. */
  function Unset(junk: u32): Outcome {
    if AsResult(junk) == -1 then Missing(0, 0) else Found(junk, FT_DIRECTORY, 0)
  }

  /** What this is for a path: halted for the root, done for a directory whose slots behind the dots
      are unused, refused for anything else. */
  lemma RmdirOfPath(t: Tree, rank: map<nat, nat>, cs: seq<string>, r: RmdirResult, t': Tree)
    requires TreeOk(t, rank) && Names16(cs) && RmdirDone(t, Search(t, cs), r, t')
    ensures var s := Search(t, cs);
            && (r == Panic <==> s.Found? && s.ino == 0) && (r != Panic && r != Answer(0) ==> r == Answer(-1))
            && (r == Answer(0) <==> s.Found? && s.ftype == 2 && s.ino != 0 && s.ino in t &&
                                    forall j :: 2 <= j < |t[s.ino]| ==> t[s.ino][j].ftype == 0)
            && (r != Answer(0) ==> t' == t) && (r == Answer(0) ==> s.ino !in t')
  {
    hide TreeOk, Search;
    FoundDirs(t, rank, cs);
  }

  /** And for a path of several slashes, whose number was never set. */
  lemma RmdirOfSlashes(t: Tree, rank: map<nat, nat>, junk: u32, r: RmdirResult, t': Tree)
    requires TreeOk(t, rank) && RmdirDone(t, Unset(junk), r, t')
    ensures (r == Panic <==> junk == 0) && (r == Astray <==> junk != 0 && junk != 0xffff_ffff && junk as nat !in t)
    ensures r == Answer(0) <==> junk != 0 && junk as nat in t && forall j :: 2 <= j < |t[junk]| ==> t[junk][j].ftype == 0
    ensures r != Answer(0) ==> t' == t
  {
    hide TreeOk;
    RootIn(t, rank);
    if junk as nat in t { DirNumber(t, rank, junk); }
  }

  class FileTree {
    var tree: Tree

    constructor (tree: Tree)
      ensures this.tree == tree
    {
      this.tree := tree;
    }

    /** sys_rmdir. The emptiness test is the one on the directory's size. */
    method SysRmdir(path: string, junk: u32, ghost rank: map<nat, nat>) returns (r: RmdirResult)
      requires Names16(Components(path)) && path != "" && path[0] == '/' && |path| < 512
      requires TreeOk(tree, rank)
      modifies this
      ensures RmdirDone(old(tree), if OnlySlashes(path) then Unset(junk) else Search(old(tree), Components(path)), r, tree)
    {
      hide TreeOk, Components, Search, Removed, OnlyDots;
      var searchedRecord := new SearchRecord();
      var inodeNo := SearchFile(tree, path, junk, searchedRecord, rank);
      RootIn(tree, rank);
      if !OnlySlashes(path) { FoundDirs(tree, rank, Components(path)); }
      if inodeNo == 0 {
        return Panic;
      }
      r := Answer(-1);
      if inodeNo != -1 {
        if searchedRecord.fileType != FT_REGULAR {
          if inodeNo !in tree {
            return Astray;
          }
          if OnlyDots(tree[inodeNo]) {
            tree := Removed(tree, searchedRecord.parentDir, inodeNo);
            r := Answer(0);
          }
        }
      }
    }
  }

  lemma FoundDirs(t: Tree, rank: map<nat, nat>, cs: seq<string>)
    requires TreeOk(t, rank) && Names16(cs)
    ensures var r := Search(t, cs);
            && (r.Found? ==> r.ftype == FT_DIRECTORY || r.ftype == FT_REGULAR)
            && (IsDir(r) ==> r.ino in t && r.parent in t)
            && (r.Found? && r.ino == 0 ==> IsDir(r))
  {
    hide TreeOk;
    SearchKinds(t, rank, cs);
    RootIn(t, rank);
    if Search(t, cs).Found? && Search(t, cs).ino != 0 { LastStep(t, rank, cs); }
    if cs != [] { SearchKinds(t, rank, cs[..|cs| - 1]); }
  }
}

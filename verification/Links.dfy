/** The files of a tree: each operation on the tree adds or takes away exactly the file it names. */
module Links {
  import opened Disks
  import opened Dirs
  import opened Trees
  import opened Cwd
  import opened TreeOps

  ghost predicate HasFile(t: Tree, i: nat) {
    exists d, j :: IsFile(t, d, j) && t[d][j].ino as int == i
  }

  /** The tree is well formed, and the files are exactly those it has an entry for. */
  ghost predicate Linked(t: Tree, files: set<nat>) {
    WellFormed(t) && forall i: nat :: i in files <==> HasFile(t, i)
  }

  /** A number that neither a directory nor a file has is free for a new entry. */
  lemma FreeNumber(t: Tree, files: set<nat>, i: u32)
    requires Linked(t, files) && i as nat !in t && i as nat !in files && 0 < i < MAX_FILES
    ensures FreeInode(t, i)
  {
    hide TreeOk, LinkOk;
    var rank :| TreeOk(t, rank);
    forall d, j | d in t && 0 <= j < |t[d]| && t[d][j].Live() && !t[d][j].Dot() ensures t[d][j].ino != i {
      DirFacts(t, rank, d);
      EntryKinds(t, d, j);
      assert IsFile(t, d, j) ==> HasFile(t, t[d][j].ino);
    }
  }

  lemma EntryKinds(t: Tree, d: nat, j: nat)
    requires DirIn(t, d) && j < |t[d]| && t[d][j].Live() && !t[d][j].Dot()
    ensures t[d][j].ino as int in t || IsFile(t, d, j)
  {
    hide SlotsOk;
    assert EntryOk(t, d, t[d][j]);
  }

  lemma CreateLinks(t: Tree, files: set<nat>, p: u32, k: nat, name: string, i: u32)
    requires Linked(t, files) && CanAdd(t, p, k, name, i)
    ensures Linked(After(t, Create(p, k, name, i)), files + {i as nat})
  {
    hide TreeOk, CanAdd;
    var rank :| TreeOk(t, rank);
    OpKeepsTree(t, rank, Create(p, k, name, i));
    NewEntry(t, p, k, name, i);
  }

  lemma NewEntry(t: Tree, p: u32, k: nat, name: string, i: u32)
    requires CanAdd(t, p, k, name, i)
    ensures forall x: nat :: HasFile(After(t, Create(p, k, name, i)), x) <==> HasFile(t, x) || x == i as nat
  {
    hide FileName, First, FreeInode;
    var t' := After(t, Create(p, k, name, i));
    assert IsFile(t', p, k) && t'[p as nat][k].ino == i;
    forall x: nat ensures HasFile(t', x) <==> HasFile(t, x) || x == i as nat {
      if HasFile(t, x) {
        var d, j :| IsFile(t, d, j) && t[d][j].ino as int == x;
        assert IsFile(t', d, j) && t'[d][j].ino as int == x;
      }
      if HasFile(t', x) && x != i as nat {
        var d, j :| IsFile(t', d, j) && t'[d][j].ino as int == x;
        assert IsFile(t, d, j) && t[d][j].ino as int == x;
      }
    }
  }

  /** The file entries of `u` are those of `t` but for the ones with number `x`. */
  ghost predicate FilesBut(t: Tree, u: Tree, x: int) {
    && (forall d, j :: IsFile(u, d, j) ==> IsFile(t, d, j) && u[d][j] == t[d][j] && u[d][j].ino as int != x)
    && forall d, j :: IsFile(t, d, j) && t[d][j].ino as int != x ==> IsFile(u, d, j) && u[d][j] == t[d][j]
  }

  lemma StillLinked(t: Tree, u: Tree, files: set<nat>, x: int)
    requires Linked(t, files) && WellFormed(u) && FilesBut(t, u, x)
    ensures Linked(u, set i | i in files && i != x)
  {
    hide WellFormed;
    forall i: nat ensures HasFile(u, i) <==> HasFile(t, i) && i != x {
      if HasFile(u, i) {
        var d, j :| IsFile(u, d, j) && u[d][j].ino as int == i;
        assert IsFile(t, d, j) && t[d][j].ino as int == i;
      }
      if HasFile(t, i) && i != x {
        var d, j :| IsFile(t, d, j) && t[d][j].ino as int == i;
        assert IsFile(u, d, j) && u[d][j].ino as int == i;
      }
    }
  }

  lemma MkdirLinks(t: Tree, files: set<nat>, p: u32, k: nat, name: string, i: u32)
    requires Linked(t, files) && CanAdd(t, p, k, name, i)
    ensures Linked(After(t, Mkdir(p, k, name, i)), files)
  {
    hide TreeOk, CanAdd, HasFile;
    var rank :| TreeOk(t, rank);
    var op := Mkdir(p, k, name, i);
    OpKeepsTree(t, rank, op);
    NoNewFile(t, p, k, name, i);
    StillLinked(t, After(t, op), files, -1);
    assert (set x | x in files && x != -1) == files;
  }

  lemma NoNewFile(t: Tree, p: u32, k: nat, name: string, i: u32)
    requires CanAdd(t, p, k, name, i)
    ensures FilesBut(t, After(t, Mkdir(p, k, name, i)), -1)
  {
    hide FileName, First, NewDir;
    NoFilesInNewDir(i, p);
  }

  /** sys_unlink takes out the one entry of the file. */
  lemma UnlinkLinks(t: Tree, files: set<nat>, p: u32, k: nat, i: u32)
    requires IsFile(t, p, k) && t[p][k].ino == i
    requires Linked(t, files)
    ensures Linked(t[p as nat := Deleted(t[p], i)], files - {i as nat})
  {
    hide TreeOk, FirstEntry;
    var rank :| TreeOk(t, rank);
    DirFacts(t, rank, p);
    FileNotDot(t[p], k);
    FilesLinkedOnce(t, rank);
    UsedSlot(t, rank, p, k);
    var u := t[p as nat := t[p][k := DEAD]];
    OnlyEntry(t, rank, p, k);
    FileGone(t, rank, p, k);
    EntryGone(t, u, p, k, i);
    StillLinked(t, u, files, i);
    assert (set x | x in files && x != i as int) == files - {i as nat};
  }

  lemma EntryGone(t: Tree, u: Tree, p: u32, k: nat, i: u32)
    requires LinkedOnce(t) && IsFile(t, p, k) && t[p][k].ino == i && u == t[p as nat := t[p][k := DEAD]]
    ensures FilesBut(t, u, i)
  {
  }

  lemma OnlyEntry(t: Tree, rank: map<nat, nat>, p: nat, k: nat)
    requires IsFile(t, p, k)
    requires TreeOk(t, rank)
    ensures Deleted(t[p], t[p][k].ino) == t[p][k := DEAD]
  {
    hide TreeOk, FirstEntry;
    var i := t[p][k].ino;
    DirFacts(t, rank, p);
    FileNotDot(t[p], k);
    FileNumber(t, p, k);
    SameNumberSameFile(t, rank, p, FirstEntry(t[p], i), k);
  }

  lemma FileNumber(t: Tree, p: nat, k: nat)
    requires DirIn(t, p) && IsFile(t, p, k) && t[p][k].Live() && !t[p][k].Dot()
    ensures t[p][k].ino as int !in t
  {
    hide SlotsOk;
    assert EntryOk(t, p, t[p][k]);
  }

  /** dir_remove keeps the tree if the directory is looked for in its parent, and breaks it if it is
      looked for in itself. */
  lemma RmdirLinks(t: Tree, files: set<nat>, p: u32, i: u32)
    requires i != 0 && i as nat in t && p as nat in t && OnlyDots(t[i]) && (Parent(t, i) == p as nat || p == i)
    requires Linked(t, files)
    ensures p != i ==> Linked(Removed(t, p, i), files)
    ensures p == i ==> !WellFormed(Removed(t, p, i))
  {
    hide TreeOk, FirstEntry, OnlyDots;
    var rank :| TreeOk(t, rank);
    Up(t, rank, i);
    if p == i {
      NoEntryForItself(t, rank, i);
      var u := t - {i as nat};
      assert Removed(t, p, i) == u;
      forall rank' ensures !TreeOk(u, rank') { DanglingEntry(t, rank, i, rank'); }
    } else {
      var k :| 0 <= k < |t[p]| && IsChild(t[p][k], i);
      ChildEntry(t, rank, p, k, i);
      DirGone(t, rank, p, k, i);
      DirEntryGone(t, rank, p, k, i);
      StillLinked(t, Removed(t, p, i), files, -1);
      assert (set x | x in files && x != -1) == files;
    }
  }

  lemma NoEntryForItself(t: Tree, rank: map<nat, nat>, i: u32)
    requires i as nat in t && OnlyDots(t[i])
    requires TreeOk(t, rank)
    ensures Deleted(t[i], i) == t[i]
  {
    hide TreeOk, FirstEntry, SlotsOk;
    DirFacts(t, rank, i);
    DirFactsDot(t[i]);
  }

  lemma ChildEntry(t: Tree, rank: map<nat, nat>, p: nat, k: nat, i: nat)
    requires p in t && k < |t[p]| && IsChild(t[p][k], i) && i in t
    requires TreeOk(t, rank)
    ensures Removed(t, p, i) == WithoutDir(t, p, k, i)
  {
    hide TreeOk, FirstEntry;
    OnlyLink(t, rank, p, k, i, p);
  }

  lemma DirEntryGone(t: Tree, rank: map<nat, nat>, p: u32, k: nat, i: u32)
    requires p as nat in t && k < |t[p]| && IsChild(t[p][k], i) && i as nat in t && OnlyDots(t[i])
    requires TreeOk(t, rank)
    ensures FilesBut(t, WithoutDir(t, p, k, i), -1)
  {
    hide TreeOk;
    DirFacts(t, rank, i);
    NoFileIn(t[i]);
  }

  lemma NoFileIn(s: seq<DirEntry>)
    requires SlotsOk(s) && OnlyDots(s)
    ensures forall j :: 0 <= j < |s| ==> s[j].ftype != FT_REGULAR
  {
  }

  // ----- runs

  /** What users see: the tree, and the contents of the files under their inode numbers. */
  datatype Fs = Fs(tree: Tree, files: map<nat, seq<byte>>)

  datatype FsOp = MakeFile(p: u32, k: nat, name: string, i: u32)
                | MakeSubdir(p: u32, k: nat, name: string, i: u32)
                | Append(i: u32, buf: seq<byte>)
                | DeleteFile(p: u32, j: nat, i: u32)
                | DeleteSubdir(p: u32, i: u32)

  ghost predicate FsStep(s: Fs, op: FsOp, s': Fs) {
    match op
    case MakeFile(p, k, name, i) => Does(s.tree, Create(p, k, name, i), s'.tree) && s'.files == s.files[i as nat := []]
    case MakeSubdir(p, k, name, i) => Does(s.tree, Mkdir(p, k, name, i), s'.tree) && s'.files == s.files
    case Append(i, buf) => i as nat in s.files && s' == s.(files := s.files[i as nat := s.files[i] + buf])
    case DeleteFile(p, j, i) =>
      && IsFile(s.tree, p, j) && s.tree[p][j].ino == i
      && s' == Fs(s.tree[p as nat := Deleted(s.tree[p], i)], s.files - {i as nat})
    case DeleteSubdir(p, i) =>
      && i != 0 && i != p && i as nat in s.tree && p as nat in s.tree && Parent(s.tree, i) == p as nat && OnlyDots(s.tree[i])
      && s' == s.(tree := Removed(s.tree, p, i))
  }

  /** A run from a freshly formatted partition. */
  ghost predicate FsRun(states: seq<Fs>, ops: seq<FsOp>) {
    && |states| == |ops| + 1 && states[0] == Fs(FORMATTED, map[])
    && forall n :: 0 <= n < |ops| ==> FsStep(states[n], ops[n], states[n + 1])
  }

  /** Everything appended to inode `i` since it was last created. */
  function Written(ops: seq<FsOp>, i: nat): seq<byte> {
    if ops == [] then []
    else
      var rest := Written(ops[..|ops| - 1], i);
      match ops[|ops| - 1]
      case MakeFile(_, _, _, j) => if j as nat == i then [] else rest
      case Append(j, buf) => if j as nat == i then rest + buf else rest
      case _ => rest
  }

  lemma StepLinked(s: Fs, op: FsOp, s': Fs)
    requires Linked(s.tree, s.files.Keys) && FsStep(s, op, s')
    ensures Linked(s'.tree, s'.files.Keys)
  {
    hide Linked, CanAdd, After, Deleted, Removed, OnlyDots, IsFile;
    match op
    case MakeFile(p, k, name, i) =>
      CreateLinks(s.tree, s.files.Keys, p, k, name, i);
      assert s'.files.Keys == s.files.Keys + {i as nat};
    case MakeSubdir(p, k, name, i) => MkdirLinks(s.tree, s.files.Keys, p, k, name, i);
    case Append(i, buf) => assert s'.files.Keys == s.files.Keys;
    case DeleteFile(p, j, i) =>
      UnlinkLinks(s.tree, s.files.Keys, p, j, i);
      assert s'.files.Keys == s.files.Keys - {i as nat};
    case DeleteSubdir(p, i) => RmdirLinks(s.tree, s.files.Keys, p, i);
  }

  /** After every run the tree is well formed, the files are exactly those it has entries for, and
      each holds everything appended to it since it was created. */
  lemma {:induction false} RunsHoldWhatWasWritten(states: seq<Fs>, ops: seq<FsOp>)
    requires FsRun(states, ops)
    ensures var s := states[|ops|];
            Linked(s.tree, s.files.Keys) && forall i :: i in s.files ==> s.files[i] == Written(ops, i)
    decreases |ops|
  {
    hide Linked, Does, Deleted, Removed, OnlyDots, IsFile;
    if ops == [] {
      NoFilesYet();
      assert states[0].files.Keys == {};
    } else {
      var n := |ops| - 1;
      RunsHoldWhatWasWritten(states[..n + 1], ops[..n]);
      StepLinked(states[n], ops[n], states[n + 1]);
    }
  }

  lemma NoFilesYet()
    ensures Linked(FORMATTED, {})
  {
    hide TreeOk, NewDir;
    FormattedOk();
    NoFilesInNewDir(0, 0);
    assert FORMATTED[0] == NewDir(0, 0);
  }
}

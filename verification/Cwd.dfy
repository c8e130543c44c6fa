/** Printing the working directory and changing it (sys_getcwd and sys_chdir in fs/fs.c). */
module Cwd {
  import opened Disks
  import opened Dirs
  import opened Paths
  import opened Trees

  /** The first slot with this inode number, or -1. */
  ghost function FirstIno(s: seq<DirEntry>, c: nat): (k: int)
    ensures -1 <= k < |s|
    ensures k == -1 ==> forall i :: 0 <= i < |s| ==> s[i].ino as int != c
    ensures k != -1 ==> s[k].ino as int == c && forall i :: 0 <= i < k ==> s[i].ino as int != c
  {
    if s == [] then -1
    else if s[0].ino as int == c then 0
    else var k := FirstIno(s[1..], c); if k == -1 then -1 else k + 1
  }

  ghost function NameOf(t: Tree, p: nat, c: nat): string
    requires p in t
  {
    var k := FirstIno(t[p], c);
    if k == -1 then "" else t[p][k].name
  }

  /** The names from the root down to `c`. */
  ghost function PathOf(t: Tree, rank: map<nat, nat>, c: nat): seq<string>
    requires TreeOk(t, rank) && c in t
    decreases if c in rank then rank[c] else 0
  {
    Up(t, rank, c);
    if c == 0 then [] else PathOf(t, rank, Parent(t, c)) + [NameOf(t, Parent(t, c), c)]
  }

  lemma Up(t: Tree, rank: map<nat, nat>, c: nat)
    requires TreeOk(t, rank) && c in t
    ensures |t[c]| == SLOTS && Parent(t, c) in t && c in rank && Parent(t, c) in rank && c < MAX_FILES
    ensures c != 0 ==> rank[Parent(t, c)] < rank[c] && HasChild(t, Parent(t, c), c)
    ensures t[c][1].ftype == FT_DIRECTORY && t[c][0].ino as int == c
  {
    hide TreeOk;
    DirFacts(t, rank, c);
  }

  /** The first slot of the parent that carries the child's number is the child's entry: the dot
      entries name the parent and its own parent, unused slots and files name no directory. */
  lemma ChildSlot(t: Tree, rank: map<nat, nat>, c: nat)
    requires TreeOk(t, rank) && c in t && c != 0
    ensures |t[c]| == SLOTS && Parent(t, c) in t
    ensures var s, k := t[Parent(t, c)], FirstIno(t[Parent(t, c)], c);
            && k != -1 && IsChild(s[k], c) && FileName(s[k].name) && IsComponent(s[k].name)
            && First(s, s[k].name) == k && NameOf(t, Parent(t, c), c) == s[k].name
  {
    hide TreeOk, First, FirstIno;
    Up(t, rank, c);
    var p := Parent(t, c);
    Up(t, rank, p);
    DirFacts(t, rank, p);
    if p != 0 { Up(t, rank, Parent(t, p)); }
    RootIn(t, rank);
    var s := t[p];
    var j :| 0 <= j < |s| && IsChild(s[j], c);
    var k := FirstIno(s, c);
    assert k != -1 && s[k].ino as int == c;
    SlotOfChild(t, rank, p, c, k);
    OnlyName(s, k);
  }

  lemma SlotOfChild(t: Tree, rank: map<nat, nat>, p: nat, c: nat, k: nat)
    requires TreeOk(t, rank) && c in t && c != 0 && p in t && k < |t[p]| && t[p][k].ino as int == c
    requires |t[p]| == SLOTS && p != c && Parent(t, p) != c
    ensures IsChild(t[p][k], c)
  {
    hide TreeOk;
    DirFacts(t, rank, p);
    DotSlots(t[p]);
    DotNames(t[p], k);
  }

  lemma DotNames(s: seq<DirEntry>, k: nat)
    requires SlotsOk(s) && k < |s|
    ensures s[k].Live() && s[k].Dot() ==> k == 0 || k == 1
    ensures !s[k].Live() ==> s[k].ino == 0
    ensures s[k].Live() ==> FileName(s[k].name)
  {
    assert s[0].Live() && s[1].Live() && s[0].name == "." && s[1].name == "..";
  }

  lemma OnlyName(s: seq<DirEntry>, k: nat)
    requires SlotsOk(s) && k < |s| && s[k].Live()
    ensures First(s, s[k].name) == k && FileName(s[k].name)
  {
    var i := First(s, s[k].name);
    assert s[i].name == s[k].name && s[i].Live();
  }

  /** The printed names lead back to the directory. */
  lemma {:induction false} PathFindsDir(t: Tree, rank: map<nat, nat>, c: nat)
    requires TreeOk(t, rank) && c in t
    ensures var cs := PathOf(t, rank, c); Washed(cs) && Names16(cs)
    ensures |t[c]| == SLOTS && Search(t, PathOf(t, rank, c)) == Found(c, FT_DIRECTORY, Parent(t, c))
    decreases if c in rank then rank[c] else 0
  {
    hide TreeOk, First, NameOf, Step;
    Up(t, rank, c);
    RootIn(t, rank);
    if c != 0 {
      var p := Parent(t, c);
      PathFindsDir(t, rank, p);
      ChildSlot(t, rank, c);
      var cs, name := PathOf(t, rank, p), NameOf(t, p, c);
      assert (cs + [name])[..|cs|] == cs;
      StepToChild(t, p, c, name, |cs| + 1);
    }
  }

  lemma StepToChild(t: Tree, p: nat, c: nat, name: string, n: nat)
    requires p in t && First(t[p], name) != -1 && IsChild(t[p][First(t[p], name)], c)
    ensures Step(t, p, name, n) == Found(c, FT_DIRECTORY, p)
  {
  }

  /** A clean path that leads to a directory is the one printed for it. */
  lemma {:induction false} PathIsUnique(t: Tree, rank: map<nat, nat>, cs: seq<string>)
    requires TreeOk(t, rank) && Washed(cs) && Names16(cs)
    requires Search(t, cs).Found? && Search(t, cs).ftype == FT_DIRECTORY
    ensures Search(t, cs).ino in t && PathOf(t, rank, Search(t, cs).ino) == cs
  {
    hide TreeOk, First, NameOf, Step;
    SearchUp(t, rank, cs);
    if cs != [] {
      var front, c := cs[..|cs| - 1], Search(t, cs).ino;
      PathIsUnique(t, rank, front);
      SearchKinds(t, rank, front);
      StepName(t, rank, Search(t, front).ino, cs[|cs| - 1], |cs|);
      assert cs == front + [cs[|cs| - 1]];
    } else {
      RootIn(t, rank);
    }
  }

  lemma StepName(t: Tree, rank: map<nat, nat>, p: nat, x: string, n: nat)
    requires TreeOk(t, rank) && p in t && x != "" && x != "." && x != ".."
    requires Step(t, p, x, n).Found? && Step(t, p, x, n).ftype == FT_DIRECTORY
    ensures var c := Step(t, p, x, n).ino; c in t && |t[c]| == SLOTS && Parent(t, c) == p && c != 0 && NameOf(t, p, c) == x
  {
    hide TreeOk, First, NameOf, SlotsOk;
    StepKinds(t, rank, p, x, n);
    var c := Step(t, p, x, n).ino;
    ChildSlot(t, rank, c);
    DirFacts(t, rank, p);
    SameChild(t[p], First(t[p], x), FirstIno(t[p], c), c);
  }

  lemma SameChild(s: seq<DirEntry>, i: nat, j: nat, c: nat)
    requires SlotsOk(s) && i < |s| && j < |s| && IsChild(s[i], c) && IsChild(s[j], c)
    ensures i == j
  {
  }

  // ----- sys_getcwd

  /** get_child_dir_name */
  method GetChildDirName(t: Tree, parent: nat, child: nat, path: string) returns (ok: bool, r: string)
    requires parent in t
    ensures ok <==> FirstIno(t[parent], child) != -1
    ensures r == if ok then path + "/" + NameOf(t, parent, child) else path
  {
    r := path;
    var s := t[parent];
    var dirEIdx := 0;
    while dirEIdx < |s|
      invariant 0 <= dirEIdx <= |s| && forall i :: 0 <= i < dirEIdx ==> s[i].ino as int != child
    {
      if s[dirEIdx].ino as int == child {
        r := r + "/";
        r := r + s[dirEIdx].name;
        return true, r;
      }
      dirEIdx := dirEIdx + 1;
    }
    return false, r;
  }

  function Reverse(cs: seq<string>): (r: seq<string>)
    ensures |r| == |cs|
  {
    if cs == [] then [] else [cs[|cs| - 1]] + Reverse(cs[..|cs| - 1])
  }

  /** What the parent walk has collected on the way from `c` up to `at`. */
  ghost predicate Climbed(full: string, names: seq<string>, above: seq<string>) {
    |above| <= |names| && names[..|above|] == above && full == Join(Reverse(names[|above|..]))
  }

  lemma ClimbStep(full: string, names: seq<string>, above: seq<string>, name: string)
    requires Climbed(full, names, above + [name])
    ensures Climbed(full + "/" + name, names, above)
  {
    var n := |above|;
    assert names[n] == (above + [name])[n] == name;
    assert names[..n] == (above + [name])[..n] == above;
    var low := names[n + 1..];
    assert names[n..] == [name] + low;
    ReverseFirst(name, low);
    var r := Reverse(low);
    assert (r + [name])[..|r|] == r;
  }

  lemma {:induction false} ReverseFirst(c: string, cs: seq<string>)
    ensures Reverse([c] + cs) == Reverse(cs) + [c]
  {
    var all := [c] + cs;
    if cs == [] {
      assert all[..0] == [];
    } else {
      assert all[..|all| - 1] == [c] + cs[..|cs| - 1];
      ReverseFirst(c, cs[..|cs| - 1]);
    }
  }

  /** The loop that cuts at the last slash moves names over one by one, undoing the reversal. */
  ghost predicate Unwinding(full: string, buf: string, names: seq<string>, n: nat) {
    n <= |names| && buf == Join(names[..n]) && full == Join(Reverse(names[n..]))
  }

  lemma UnwindStep(full: string, buf: string, names: seq<string>, n: nat)
    requires Unwinding(full, buf, names, n) && AllComponents(names)
    ensures LastSlash(full) == -1 <==> n == |names|
    ensures n < |names| ==> Unwinding(full[..LastSlash(full)], buf + full[LastSlash(full)..], names, n + 1)
  {
    if n < |names| {
      var low := names[n + 1..];
      assert names[n..] == [names[n]] + low;
      ReverseFirst(names[n], low);
      var r := Reverse(low);
      LastSlashOfJoin(r + [names[n]]);
      assert (r + [names[n]])[..|r|] == r;
      assert names[..n + 1][..n] == names[..n];
      assert full == Join(r) + "/" + names[n];
      assert full[|Join(r)|..] == "/" + names[n];
      assert buf + ("/" + names[n]) == buf + "/" + names[n];
    }
  }

  /** Climbs to the root collecting names backwards, then turns the path round. */
  method SysGetcwd(t: Tree, cwdInodeNr: nat, ghost rank: map<nat, nat>) returns (buf: string)
    requires TreeOk(t, rank) && cwdInodeNr in t
    ensures buf == Render(PathOf(t, rank, cwdInodeNr))
  {
    hide TreeOk, PathOf, Join, Climbed, Unwinding, NameOf, Reverse;
    var childInodeNr := cwdInodeNr;
    NamesOf(t, rank, childInodeNr);
    if childInodeNr == 0 {
      return "/";
    }
    ghost var names := PathOf(t, rank, cwdInodeNr);
    var fullPathReverse := "";
    ClimbStart(names);
    while childInodeNr != 0
      invariant childInodeNr in t && Climbed(fullPathReverse, names, PathOf(t, rank, childInodeNr))
      decreases if childInodeNr in rank then rank[childInodeNr] else 0
    {
      Up(t, rank, childInodeNr);
      ChildSlot(t, rank, childInodeNr);
      NamesOf(t, rank, childInodeNr);
      var parentInodeNr := t[childInodeNr][1].ino;
      assert parentInodeNr == Parent(t, childInodeNr);
      var ok, full := GetChildDirName(t, parentInodeNr, childInodeNr, fullPathReverse);
      assert ok;
      ClimbStep(fullPathReverse, names, PathOf(t, rank, parentInodeNr), NameOf(t, parentInodeNr, childInodeNr));
      fullPathReverse := full;
      childInodeNr := parentInodeNr;
    }
    NamesOf(t, rank, 0);
    UnwindStart(fullPathReverse, names);
    PathFindsDir(t, rank, cwdInodeNr);
    buf := "";
    ghost var n := 0;
    UnwindStep(fullPathReverse, buf, names, n);
    var lastSlash := LastSlash(fullPathReverse);
    while lastSlash != -1
      invariant Unwinding(fullPathReverse, buf, names, n) && lastSlash == LastSlash(fullPathReverse)
      invariant n <= |names| && (lastSlash != -1 <==> n < |names|)
      decreases |fullPathReverse|
    {
      UnwindStep(fullPathReverse, buf, names, n);
      buf := buf + fullPathReverse[lastSlash..];
      fullPathReverse := fullPathReverse[..lastSlash];
      n := n + 1;
      UnwindStep(fullPathReverse, buf, names, n);
      lastSlash := LastSlash(fullPathReverse);
    }
    UnwindEnd(fullPathReverse, buf, names, n);
  }

  lemma NamesOf(t: Tree, rank: map<nat, nat>, c: nat)
    requires TreeOk(t, rank) && c in t
    ensures c == 0 <==> PathOf(t, rank, c) == []
    ensures |t[c]| == SLOTS && Parent(t, c) in t
    ensures c != 0 ==> PathOf(t, rank, c) == PathOf(t, rank, Parent(t, c)) + [NameOf(t, Parent(t, c), c)]
  {
    hide TreeOk, NameOf;
    Up(t, rank, c);
  }

  lemma ClimbStart(names: seq<string>)
    ensures Climbed("", names, names)
  {
    assert names[|names|..] == [];
  }

  lemma UnwindStart(full: string, names: seq<string>)
    requires Climbed(full, names, [])
    ensures Unwinding(full, "", names, 0)
  {
    assert names[0..] == names && names[..0] == [];
  }

  lemma UnwindEnd(full: string, buf: string, names: seq<string>, n: nat)
    requires Unwinding(full, buf, names, n) && n == |names| && names != []
    ensures buf == Render(names)
  {
    assert names[..n] == names;
  }

  // ----- round trips

  /** getcwd, then lookup: the printed path finds the directory it was printed for. */
  lemma CwdRoundTrip(t: Tree, rank: map<nat, nat>, c: nat)
    requires TreeOk(t, rank) && c in t
    ensures var path := Render(PathOf(t, rank, c));
            && WashPathOf(path) == path
            && Search(t, Components(path)).Found? && Search(t, Components(path)).ino == c
            && Search(t, Components(path)).ftype == FT_DIRECTORY
  {
    hide TreeOk, PathOf, Search;
    PathFindsDir(t, rank, c);
    ComponentsOfJoin(PathOf(t, rank, c));
    WashKeepsClean(PathOf(t, rank, c));
  }

  /** Lookup, then getcwd: a path to a directory prints as the washed path. */
  lemma LookupThenPrint(t: Tree, rank: map<nat, nat>, path: string)
    requires TreeOk(t, rank) && Names16(Components(path))
    requires Search(t, Components(path)).Found? && Search(t, Components(path)).ftype == FT_DIRECTORY
    ensures var c := Search(t, Components(path)).ino; c in t && Render(PathOf(t, rank, c)) == WashPathOf(path)
  {
    hide TreeOk, PathOf;
    var cs := Components(path);
    ComponentsAre(path);
    FrontIsDirs(t, rank, cs);
    DirsAllTheWay(t, rank, cs);
    WashPreservesLookup(t, rank, cs);
    WashCleans(cs);
    PathIsUnique(t, rank, Wash(cs));
  }

  class Process {
    var cwdInodeNr: nat

    constructor ()
      ensures cwdInodeNr == 0
    {
      cwdInodeNr := 0;
    }

    /** After a successful change of directory, getcwd prints the washed path, which therefore fits
        every buffer the path fitted. */
    method SysChdir(t: Tree, path: string, junk: u32, ghost rank: map<nat, nat>) returns (ret: int)
      requires TreeOk(t, rank) && Names16(Components(path)) && path != "" && path[0] == '/' && |path| < 512
      requires cwdInodeNr in t
      modifies this
      ensures !OnlySlashes(path) ==>
                var r := Search(t, Components(path));
                && (ret == 0 <==> r.Found? && r.ftype == FT_DIRECTORY)
                && (ret == 0 || ret == -1)
                && (ret == 0 ==> cwdInodeNr in t && Render(PathOf(t, rank, cwdInodeNr)) == WashPathOf(path) &&
                                 |Render(PathOf(t, rank, cwdInodeNr))| <= |path| < 512)
                && (ret == -1 ==> cwdInodeNr == old(cwdInodeNr))
      ensures OnlySlashes(path) ==> ret == (if junk == 0xffff_ffff then -1 else 0) && cwdInodeNr == if ret == 0 then junk else old(cwdInodeNr)
    {
      hide TreeOk, PathOf, Components, Search, Names16, WashPathOf, Render;
      ret := -1;
      var searchRecord := new SearchRecord();
      var inodeNo := SearchFile(t, path, junk, searchRecord, rank);
      if inodeNo != -1 {
        if searchRecord.fileType == FT_DIRECTORY {
          cwdInodeNr := inodeNo;
          ret := 0;
          if !OnlySlashes(path) {
            LookupThenPrint(t, rank, path);
            WashedPathFits(path);
          }
        }
      }
    }
  }
}

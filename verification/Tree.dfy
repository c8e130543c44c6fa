/** The directory tree: looking paths up and printing the working directory (fs/fs.c). */
module Trees {
  import opened Disks
  import opened Dirs
  import opened Paths

  const MAX_FILES := 4096

  /** Each directory's slots, under its inode number. */
  type Tree = map<nat, seq<DirEntry>>

  /** Entry `i` of a directory is an ordinary one for a subdirectory. */
  predicate IsChild(e: DirEntry, c: nat) {
    e.ftype == FT_DIRECTORY && !e.Dot() && e.ino as int == c
  }

  ghost predicate HasChild(t: Tree, p: nat, c: nat) {
    p in t && exists i :: 0 <= i < |t[p]| && IsChild(t[p][i], c)
  }

  /** The inode number in slot 1, "..". */
  ghost function Parent(t: Tree, d: nat): nat {
    if d in t && |t[d]| == SLOTS then t[d][1].ino else 0
  }

  /** A directory with its dot entries, whose ordinary entries name files or its own subdirectories. */
  ghost predicate DirIn(t: Tree, d: nat) {
    && d in t && d < MAX_FILES && SlotsOk(t[d])
    && t[d][0].ino as int == d && t[d][1].ino as int in t
    && forall i :: 0 <= i < |t[d]| && t[d][i].Live() ==> EntryOk(t, d, t[d][i])
  }

  ghost predicate EntryOk(t: Tree, d: nat, e: DirEntry) {
    IsComponent(e.name) && (e.Dot() || if e.ftype == FT_DIRECTORY then LinkOk(t, d, e.ino) else e.ftype == FT_REGULAR && e.ino as int !in t)
  }

  ghost predicate LinkOk(t: Tree, d: nat, c: nat) {
    c != 0 && c in t && |t[c]| == SLOTS && Parent(t, c) == d
  }

  /** Every directory but the root hangs one step below the directory its ".." names. */
  ghost predicate Hung(t: Tree, rank: map<nat, nat>, d: nat) {
    d in rank && if d == 0 then rank[d] == 0 && Parent(t, d) == 0
                 else Parent(t, d) in rank && rank[d] == rank[Parent(t, d)] + 1 && HasChild(t, Parent(t, d), d)
  }

  /** There are no hard links: an inode has at most one entry that names it as a file. */
  ghost predicate LinkedOnce(t: Tree) {
    forall d, j, e, l :: IsFile(t, d, j) && IsFile(t, e, l) && t[d][j].ino == t[e][l].ino ==> d == e && j == l
  }

  ghost predicate IsFile(t: Tree, d: nat, j: int) {
    d in t && 0 <= j < |t[d]| && t[d][j].ftype == FT_REGULAR
  }

  ghost predicate TreeOk(t: Tree, rank: map<nat, nat>) {
    0 in t && (forall d :: d in t ==> DirIn(t, d)) && (forall d :: d in t ==> Hung(t, rank, d)) && LinkedOnce(t)
  }

  // ----- lookup

  datatype Outcome = Found(ino: nat, ftype: u32, parent: nat) | Missing(parent: nat, depth: nat)

  /** Following names from the root. A regular file ends the walk, whatever names are left. */
  ghost function Search(t: Tree, cs: seq<string>): Outcome {
    if cs == [] then Found(0, FT_DIRECTORY, 0)
    else
      var r := Search(t, cs[..|cs| - 1]);
      if r.Found? && r.ftype == FT_DIRECTORY && r.ino in t then Step(t, r.ino, cs[|cs| - 1], |cs|) else r
  }

  ghost function Step(t: Tree, d: nat, c: string, n: nat): Outcome
    requires d in t
  {
    var k := First(t[d], c);
    if k == -1 then Missing(d, n) else Found(t[d][k].ino, t[d][k].ftype, d)
  }

  predicate Names16(cs: seq<string>) {
    forall i :: 0 <= i < |cs| ==> 0 < |cs[i]| < MAX_FILE_NAME_LEN
  }

  lemma DirFacts(t: Tree, rank: map<nat, nat>, d: nat)
    requires TreeOk(t, rank) && d in t
    ensures DirIn(t, d) && SlotsOk(t[d]) && Hung(t, rank, d)
  {
    hide Hung, SlotsOk;
    assert DirIn(t, d);
  }

  /** A step leads to a directory of the tree or to a regular file. */
  lemma StepKinds(t: Tree, rank: map<nat, nat>, d: nat, c: string, n: nat)
    requires TreeOk(t, rank) && d in t && c != ""
    ensures var r := Step(t, d, c, n);
            r.Found? ==> (r.ftype == FT_DIRECTORY && r.ino in t) || (r.ftype == FT_REGULAR && r.ino !in t)
    ensures c == "." ==> Step(t, d, c, n) == Found(d, FT_DIRECTORY, d)
    ensures c == ".." ==> Step(t, d, c, n) == Found(Parent(t, d), FT_DIRECTORY, d)
    ensures var r := Step(t, d, c, n);
            r.Found? && r.ftype == FT_DIRECTORY && c != "." && c != ".." ==> r.ino != 0 && Parent(t, r.ino) == d
  {
    hide SlotsOk, TreeOk;
    DirFacts(t, rank, d);
    DotSlots(t[d]);
    LookupAgrees(t[d], c);
    if c == "." || c == ".." { DotFound(t[d], c); }
    var r := Step(t, d, c, n);
    if r.Found? && r.ftype == FT_DIRECTORY && r.ino in t { DirFacts(t, rank, r.ino); }
  }

  lemma DotSlots(s: seq<DirEntry>)
    requires SlotsOk(s)
    ensures |s| == SLOTS && s[0].Live() && s[1].Live() && First(s, ".") == 0
  {
  }

  lemma DotFound(s: seq<DirEntry>, c: string)
    requires SlotsOk(s) && (c == "." || c == "..")
    ensures First(s, c) == if c == "." then 0 else 1
    ensures s[0].ftype == s[1].ftype == FT_DIRECTORY
  {
    var k := First(s, c);
    assert s[0].name == "." && s[1].name == "..";
  }

  lemma {:induction false} SearchKinds(t: Tree, rank: map<nat, nat>, cs: seq<string>)
    requires TreeOk(t, rank) && Names16(cs)
    ensures var r := Search(t, cs);
            r.Found? ==> (r.ftype == FT_DIRECTORY && r.ino in t) || (r.ftype == FT_REGULAR && r.ino !in t)
  {
    hide TreeOk;
    if cs == [] {
      RootIn(t, rank);
    } else {
      SearchKinds(t, rank, cs[..|cs| - 1]);
      var r := Search(t, cs[..|cs| - 1]);
      if r.Found? && r.ftype == FT_DIRECTORY { StepKinds(t, rank, r.ino, cs[|cs| - 1], |cs|); }
    }
  }

  lemma RootIn(t: Tree, rank: map<nat, nat>)
    requires TreeOk(t, rank)
    ensures 0 in t && Hung(t, rank, 0) && Parent(t, 0) == 0
  {
    hide DirIn;
    DirFacts(t, rank, 0);
  }

  // ----- washing preserves lookup

  lemma {:induction false} SearchPrefix(t: Tree, cs: seq<string>, n: nat)
    requires n <= |cs|
    ensures var r := Search(t, cs[..n]); !(r.Found? && r.ftype == FT_DIRECTORY && r.ino in t) ==> Search(t, cs) == r
  {
    if n == |cs| {
      assert cs[..n] == cs;
    } else {
      SearchPrefix(t, cs[..|cs| - 1], n);
      assert cs[..|cs| - 1][..n] == cs[..n];
    }
  }

  /** The names of a clean path from the root can be undone one by one. */
  lemma SearchUp(t: Tree, rank: map<nat, nat>, cs: seq<string>)
    requires TreeOk(t, rank) && Names16(cs) && Washed(cs)
    requires Search(t, cs).Found? && Search(t, cs).ftype == FT_DIRECTORY
    ensures var d := Search(t, cs).ino;
            d in t && if cs == [] then d == 0
            else Search(t, cs[..|cs| - 1]).Found? && Search(t, cs[..|cs| - 1]).ftype == FT_DIRECTORY &&
                 |t[d]| == SLOTS && Search(t, cs[..|cs| - 1]).ino == Parent(t, d) && d != 0
  {
    hide TreeOk;
    SearchKinds(t, rank, cs);
    RootIn(t, rank);
    DirFacts(t, rank, Search(t, cs).ino);
    if cs != [] {
      var r := Search(t, cs[..|cs| - 1]);
      SearchKinds(t, rank, cs[..|cs| - 1]);
      if r.Found? && r.ftype == FT_DIRECTORY && r.ino in t { StepKinds(t, rank, r.ino, cs[|cs| - 1], |cs|); }
    }
  }

  /** Same inode and type, or missing both times. */
  predicate SameFile(r: Outcome, s: Outcome) {
    if r.Found? then s.Found? && s.ino == r.ino && s.ftype == r.ftype else s.Missing?
  }

  lemma RootFound(t: Tree)
    ensures Search(t, []) == Found(0, FT_DIRECTORY, 0)
  {
  }

  /** One name more: stepping from where the clean path leads is looking up the path washed on. */
  lemma WashStepPreserves(t: Tree, rank: map<nat, nat>, stack: seq<string>, c: string, n: nat)
    requires TreeOk(t, rank) && Names16(stack) && Washed(stack) && 0 < |c| < MAX_FILE_NAME_LEN
    requires Search(t, stack).Found? && Search(t, stack).ftype == FT_DIRECTORY && Search(t, stack).ino in t
    ensures SameFile(Step(t, Search(t, stack).ino, c, n), Search(t, WashStep(stack, c))) && Names16(WashStep(stack, c))
  {
    hide TreeOk, Step, Washed, Parent;
    var d := Search(t, stack).ino;
    StepKinds(t, rank, d, c, n);
    if c == ".." {
      hide Search;
      SearchUp(t, rank, stack);
      RootIn(t, rank);
      RootFound(t);
    } else if c != "." {
      assert (stack + [c])[..|stack|] == stack;
      StepSame(t, d, c, n, |stack| + 1);
    }
  }

  ghost predicate IsDir(r: Outcome) {
    r.Found? && r.ftype == FT_DIRECTORY
  }

  /** Every ".." of the path stands after names that lead to a directory. */
  ghost predicate UpsFromDirs(t: Tree, cs: seq<string>) {
    forall n :: 0 <= n < |cs| && cs[n] == ".." ==> IsDir(Search(t, cs[..n]))
  }

  /** Then the washed path finds the same inode, or is missing too. */
  lemma {:induction false} WashPreservesLookup(t: Tree, rank: map<nat, nat>, cs: seq<string>)
    requires TreeOk(t, rank) && Names16(cs) && AllComponents(cs) && UpsFromDirs(t, cs)
    ensures SameFile(Search(t, cs), Search(t, Wash(cs))) && Names16(Wash(cs))
  {
    hide TreeOk, Step;
    if cs != [] {
      var front, c := cs[..|cs| - 1], cs[|cs| - 1];
      SearchKinds(t, rank, front);
      UpsInFront(t, cs);
      WashPreservesLookup(t, rank, front);
      WashCleans(front);
      if IsDir(Search(t, front)) {
        hide WashStep;
        WashStepPreserves(t, rank, Wash(front), c, |cs|);
      } else {
        WalkHasEnded(t, rank, Wash(front), c);
      }
    }
  }

  lemma UpsInFront(t: Tree, cs: seq<string>)
    requires UpsFromDirs(t, cs) && cs != []
    ensures UpsFromDirs(t, cs[..|cs| - 1])
    ensures cs[|cs| - 1] == ".." ==> IsDir(Search(t, cs[..|cs| - 1]))
  {
    hide Search;
    var front := cs[..|cs| - 1];
    forall n | 0 <= n < |front| && front[n] == ".." ensures IsDir(Search(t, front[..n])) {
      assert cs[n] == ".." && front[..n] == cs[..n];
    }
  }

  /** Once the walk has ended, more names change nothing. */
  lemma WalkHasEnded(t: Tree, rank: map<nat, nat>, stack: seq<string>, c: string)
    requires TreeOk(t, rank) && Names16(stack) && 0 < |c| < MAX_FILE_NAME_LEN && !IsDir(Search(t, stack))
    ensures c != ".." ==> Search(t, WashStep(stack, c)) == Search(t, stack) && Names16(WashStep(stack, c))
  {
    hide TreeOk, Step;
    assert (stack + [c])[..|stack|] == stack;
    SearchPrefix(t, stack + [c], |stack|);
  }

  /** A path that leads to a directory, or that has names only before its last one, satisfies the
      condition. */
  lemma {:induction false} DirsAllTheWay(t: Tree, rank: map<nat, nat>, cs: seq<string>)
    requires TreeOk(t, rank) && Names16(cs) && (cs == [] || IsDir(Search(t, cs[..|cs| - 1])))
    ensures UpsFromDirs(t, cs)
  {
    hide TreeOk;
    forall n | 0 <= n < |cs| && cs[n] == ".." ensures IsDir(Search(t, cs[..n])) {
      var front := cs[..|cs| - 1];
      SearchKinds(t, rank, cs[..n]);
      SearchPrefix(t, front, n);
      assert front[..n] == cs[..n];
    }
  }

  lemma FrontIsDirs(t: Tree, rank: map<nat, nat>, cs: seq<string>)
    requires TreeOk(t, rank) && Names16(cs) && Search(t, cs).Found? && Search(t, cs).ftype == FT_DIRECTORY
    ensures cs != [] ==> Search(t, cs[..|cs| - 1]).Found? && Search(t, cs[..|cs| - 1]).ftype == FT_DIRECTORY
  {
    hide TreeOk;
    if cs != [] { SearchKinds(t, rank, cs[..|cs| - 1]); }
  }

  lemma StepSame(t: Tree, d: nat, c: string, n: nat, n': nat)
    requires d in t
    ensures SameFile(Step(t, d, c, n), Step(t, d, c, n'))
  {
  }

  // ----- search_file

  class SearchRecord {
    var searchedPath: string
    var parentDir: nat
    var fileType: u32

    constructor ()
      ensures searchedPath == "" && parentDir == 0 && fileType == FT_UNKNOWN
    {
      searchedPath, parentDir, fileType := "", 0, FT_UNKNOWN;
    }
  }

  /** How many names the walk looks up: it stops behind the first that is missing or names a file. */
  ghost function Walked(t: Tree, cs: seq<string>): (n: nat)
    ensures n <= |cs|
  {
    if cs == [] then 0
    else
      var r := Search(t, cs[..|cs| - 1]);
      if r.Found? && r.ftype == FT_DIRECTORY && r.ino in t then |cs| else Walked(t, cs[..|cs| - 1])
  }

  /** The walk stops at name `n`. */
  lemma {:induction false} WalkStops(t: Tree, cs: seq<string>, n: nat)
    requires n < |cs|
    requires var r := Search(t, cs[..n]); r.Found? && r.ftype == FT_DIRECTORY && r.ino in t
    requires var r := Search(t, cs[..n + 1]); !(r.Found? && r.ftype == FT_DIRECTORY && r.ino in t)
    ensures Walked(t, cs) == n + 1
  {
    var front := cs[..|cs| - 1];
    if n < |front| {
      assert front[..n] == cs[..n] && front[..n + 1] == cs[..n + 1];
      SearchPrefix(t, front, n + 1);
      WalkStops(t, front, n);
    }
  }

  /** The names in front of the last one looked up are directories. So the test by which callers
      compare the two depths fails exactly if the path runs through something missing or a file. */
  lemma {:induction false} DepthTestDecides(t: Tree, rank: map<nat, nat>, cs: seq<string>)
    requires TreeOk(t, rank) && Names16(cs) && cs != []
    ensures Walked(t, cs) == |cs| <==>
            Search(t, cs[..|cs| - 1]).Found? && Search(t, cs[..|cs| - 1]).ftype == FT_DIRECTORY
    ensures Search(t, cs).Missing? ==> Search(t, cs).depth == Walked(t, cs)
    ensures Search(t, cs) == Search(t, cs[..Walked(t, cs)])
  {
    hide TreeOk;
    var front := cs[..|cs| - 1];
    SearchKinds(t, rank, front);
    assert cs[..|cs|] == cs;
    if front != [] {
      DepthTestDecides(t, rank, front);
      assert front[..Walked(t, front)] == cs[..Walked(t, front)];
    }
  }

  /** A path of slashes only, other than "/" itself. */
  predicate OnlySlashes(path: string) {
    path != "/" && path != "/." && path != "/.." && Components(path) == []
  }

  lemma SpecialPaths(t: Tree, rank: map<nat, nat>, path: string)
    requires TreeOk(t, rank) && (path == "/" || path == "/." || path == "/..")
    ensures Search(t, Components(path)) == Found(0, FT_DIRECTORY, 0)
  {
    hide TreeOk;
    RootIn(t, rank);
    if path == "/" {
      assert Components("/") == Components("/"[1..]);
    } else {
      var c := path[1..];
      assert [c][..0] == [];
      assert Join([c]) == Join([]) + "/" + c;
      assert "" + "/" + c == path;
      ComponentsOfJoin([c]);
      StepKinds(t, rank, 0, c, 1);
    }
  }

  /** search_dir_entry on the slots of one directory. */
  method FindEntry(s: seq<DirEntry>, name: string) returns (k: int)
    ensures k == First(s, name)
  {
    k := 0;
    while k < |s|
      invariant 0 <= k <= |s| && forall i :: 0 <= i < k ==> s[i].name != name
    {
      if s[k].name == name {
        return;
      }
      k := k + 1;
    }
    k := -1;
  }

  /** A 32-bit word returned as a signed number reads as -1 if all its bits are set. */
  function AsResult(w: u32): int {
    if w == 0xFFFF_FFFF then -1 else w
  }

  /** The number of the inode, or -1. For a path of two or more slashes and nothing else the
      source returns a number it never set; `junk` stands for that. A path has less than 512
      characters, or an assertion fails. */
  method SearchFile(t: Tree, pathname: string, junk: u32, rec: SearchRecord, ghost rank: map<nat, nat>) returns (ino: int)
    requires TreeOk(t, rank) && Names16(Components(pathname)) && rec.searchedPath == ""
    requires pathname != "" && pathname[0] == '/' && |pathname| < 512
    modifies rec
    ensures OnlySlashes(pathname) ==> ino == (if junk == 0xffff_ffff then -1 else junk) && rec.fileType == 2 && rec.parentDir == 0
    ensures !OnlySlashes(pathname) ==> rec.fileType == if ino == -1 then 0 else if ino in t then 2 else 1
    ensures rec.searchedPath == if pathname == "/" || pathname == "/." || pathname == "/.." then ""
                                else Join(Components(pathname)[..Walked(t, Components(pathname))])
    ensures !OnlySlashes(pathname) ==>
              var cs := Components(pathname);
              match Search(t, cs)
              case Found(i, ftype, parent) => ino == i && rec.fileType == ftype && rec.parentDir == parent
              case Missing(parent, _) => ino == -1 && rec.fileType == FT_UNKNOWN && rec.parentDir == parent
  {
    hide Components, Join, Search, Step, TreeOk, First, Walked;
    ghost var cs := Components(pathname);
    if pathname == "/" || pathname == "/." || pathname == "/.." {
      SpecialPaths(t, rank, pathname);
      RootIn(t, rank);
      rec.parentDir, rec.fileType, rec.searchedPath := 0, FT_DIRECTORY, "";
      return 0;
    }
    var parentDir: nat, parentInodeNo: nat, dirE: u32 := 0, 0, junk;
    rec.parentDir, rec.fileType := parentDir, FT_UNKNOWN;
    var subPath, name := PathParse(pathname);
    ghost var n := 0;
    StartAtRoot(t, rank, cs);
    while name != ""
      invariant n <= |cs| && (name != "" <==> n < |cs|) && (n < |cs| ==> name == cs[n])
      invariant if subPath.None? then n + 1 >= |cs| else n < |cs| && Components(subPath.value) == cs[n + 1..]
      invariant Search(t, cs[..n]) == Found(parentDir, FT_DIRECTORY, parentInodeNo) && parentDir in t
      invariant dirE == if n == 0 then junk else parentDir
      invariant n == 0 ==> parentInodeNo == 0
      invariant 0 < n == |cs| ==> Walked(t, cs) == n
      invariant rec.searchedPath == Join(cs[..n]) && rec.fileType == FT_UNKNOWN && rec.parentDir == parentDir
      decreases |cs| - n
    {
      WalkOn(t, rank, cs, n);
      WalkCount(t, cs, n);
      PathSoFarFits(pathname, n);
      assert |rec.searchedPath| < 512;
      rec.searchedPath := rec.searchedPath + "/";
      rec.searchedPath := rec.searchedPath + name;
      var k := FindEntry(t[parentDir], name);
      if k != -1 {
        dirE := t[parentDir][k].ino;
        name := "";
        if subPath.Some? {
          subPath, name := PathParse(subPath.value);
        }
        if t[parentDir][k].ftype == FT_DIRECTORY {
          parentInodeNo := parentDir;
          parentDir := dirE;
          rec.parentDir := parentDir;
          n := n + 1;
          continue;
        } else if t[parentDir][k].ftype == FT_REGULAR {
          rec.fileType := FT_REGULAR;
          return dirE;
        }
      } else {
        return -1;
      }
    }
    assert cs[..n] == cs;
    rec.parentDir, rec.fileType := parentInodeNo, FT_DIRECTORY;
    DirNumber(t, rank, parentDir);
    return AsResult(dirE);
  }

  lemma DirNumber(t: Tree, rank: map<nat, nat>, d: nat)
    requires TreeOk(t, rank) && d in t
    ensures d < MAX_FILES
  {
    hide TreeOk;
    DirFacts(t, rank, d);
  }

  lemma StartAtRoot(t: Tree, rank: map<nat, nat>, cs: seq<string>)
    requires TreeOk(t, rank)
    ensures Search(t, cs[..0]) == Found(0, FT_DIRECTORY, 0) && 0 in t && Join(cs[..0]) == ""
  {
  }

  /** One turn of the lookup loop. */
  lemma WalkOn(t: Tree, rank: map<nat, nat>, cs: seq<string>, n: nat)
    requires TreeOk(t, rank) && Names16(cs) && n < |cs|
    requires var r := Search(t, cs[..n]); r.Found? && r.ftype == FT_DIRECTORY && r.ino in t
    ensures var d, k := Search(t, cs[..n]).ino, First(t[Search(t, cs[..n]).ino], cs[n]);
            && Join(cs[..n + 1]) == Join(cs[..n]) + "/" + cs[n]
            && (k == -1 ==> Search(t, cs) == Search(t, cs[..n + 1]) == Missing(d, n + 1))
            && (k != -1 ==> var e := t[d][k];
                  if e.ftype == FT_DIRECTORY then Search(t, cs[..n + 1]) == Found(e.ino, FT_DIRECTORY, d) && e.ino as nat in t
                  else e.ftype == FT_REGULAR && e.ino as nat !in t && Search(t, cs) == Search(t, cs[..n + 1]) == Found(e.ino, FT_REGULAR, d))
  {
    hide TreeOk;
    assert cs[..n + 1][..n] == cs[..n];
    StepKinds(t, rank, Search(t, cs[..n]).ino, cs[n], n + 1);
    SearchPrefix(t, cs, n + 1);
  }

  lemma WalkCount(t: Tree, cs: seq<string>, n: nat)
    requires n < |cs|
    requires var r := Search(t, cs[..n]); r.Found? && r.ftype == FT_DIRECTORY && r.ino in t
    ensures var r := Search(t, cs[..n + 1]); n + 1 == |cs| || !(r.Found? && r.ftype == FT_DIRECTORY && r.ino in t) ==> Walked(t, cs) == n + 1
  {
    if n + 1 < |cs| {
      var r := Search(t, cs[..n + 1]);
      if !(r.Found? && r.ftype == FT_DIRECTORY && r.ino in t) { WalkStops(t, cs, n); }
    }
  }

  lemma {:induction false} JoinGrows(cs: seq<string>, n: nat)
    requires n <= |cs|
    ensures |Join(cs[..n])| <= |Join(cs)|
  {
    if n == |cs| {
      assert cs[..n] == cs;
    } else {
      assert cs[..|cs| - 1][..n] == cs[..n];
      JoinGrows(cs[..|cs| - 1], n);
    }
  }

  lemma PathSoFarFits(path: string, n: nat)
    requires path != "" && path[0] == '/' && |path| < 512 && n <= |Components(path)|
    ensures |Join(Components(path)[..n])| < 512
  {
    JoinFits(path);
    JoinGrows(Components(path), n);
  }
}

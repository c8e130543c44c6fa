/** When washing a path keeps what the path names (wash_path in shell/buildin_cmd.c against
    search_file in fs/fs.c). */
module Washing {
  import opened Dirs
  import opened Paths
  import opened Trees
  import opened Cwd
  import opened TreeOps

  // ----- paths that end at a file

  /** Name `n` of the path is that of a regular file, at which the walk ends. */
  ghost predicate FileAt(t: Tree, cs: seq<string>, n: nat) {
    0 < n <= |cs| && IsDir(Search(t, cs[..n - 1])) && Search(t, cs[..n]).Found? && Search(t, cs[..n]).ftype == FT_REGULAR
  }

  lemma {:induction false} FileEndsWalk(t: Tree, rank: map<nat, nat>, cs: seq<string>) returns (n: nat)
    requires TreeOk(t, rank) && Names16(cs) && Search(t, cs).Found? && Search(t, cs).ftype == FT_REGULAR
    ensures FileAt(t, cs, n) && Search(t, cs[..n]) == Search(t, cs)
  {
    hide TreeOk, Step;
    var front := cs[..|cs| - 1];
    SearchKinds(t, rank, front);
    assert cs[..|cs|] == cs;
    if IsDir(Search(t, front)) {
      n := |cs|;
    } else {
      n := FileEndsWalk(t, rank, front);
      assert front[..n] == cs[..n] && front[..n - 1] == cs[..n - 1];
    }
  }

  /** The name of a file is no dot, and its slot is where the path says. */
  lemma FileSlot(t: Tree, rank: map<nat, nat>, cs: seq<string>) returns (d: nat, k: int)
    requires Names16(cs) && FileAt(t, cs, |cs|)
    requires TreeOk(t, rank)
    ensures d == Search(t, cs[..|cs| - 1]).ino && cs[|cs| - 1] != "." && cs[|cs| - 1] != ".."
    ensures IsFile(t, d, k) && t[d][k].name == cs[|cs| - 1]
    ensures Search(t, cs).Found? && t[d][k].ino as int == Search(t, cs).ino
  {
    hide TreeOk, First;
    assert cs[..|cs|] == cs;
    SearchKinds(t, rank, cs[..|cs| - 1]);
    d := Search(t, cs[..|cs| - 1]).ino;
    StepKinds(t, rank, d, cs[|cs| - 1], |cs|);
    EntryOfStep(t, rank, d, cs[|cs| - 1], |cs|);
    k := First(t[d], cs[|cs| - 1]);
  }

  /** The clean path to a file is the printed path of its directory, and its name. */
  lemma FilePath(t: Tree, rank: map<nat, nat>, cs: seq<string>) returns (d: nat, k: int)
    requires Washed(cs) && Names16(cs) && FileAt(t, cs, |cs|)
    requires TreeOk(t, rank)
    ensures IsFile(t, d, k) && Search(t, cs).Found? && t[d][k].ino as int == Search(t, cs).ino
    ensures cs == PathOf(t, rank, d) + [t[d][k].name]
  {
    hide TreeOk, First, Search, Step, PathOf, Names16;
    d, k := FileSlot(t, rank, cs);
    FrontNames(cs);
    PathIsUnique(t, rank, cs[..|cs| - 1]);
    assert cs == cs[..|cs| - 1] + [cs[|cs| - 1]];
  }

  lemma FrontNames(cs: seq<string>)
    requires cs != [] && Washed(cs) && Names16(cs)
    ensures Washed(cs[..|cs| - 1]) && Names16(cs[..|cs| - 1])
  {
  }

  /** A file has one clean path. */
  lemma FilePathIsUnique(t: Tree, rank: map<nat, nat>, cs: seq<string>, ds: seq<string>)
    requires Washed(cs) && Names16(cs) && Washed(ds) && Names16(ds)
    requires FileAt(t, cs, |cs|) && FileAt(t, ds, |ds|) && SameFile(Search(t, cs), Search(t, ds))
    requires TreeOk(t, rank)
    ensures cs == ds
  {
    hide TreeOk, Search, PathOf, LinkedOnce, Washed, Names16, FileAt, IsFile;
    var d, j := FilePath(t, rank, cs);
    var e, l := FilePath(t, rank, ds);
    FilesLinkedOnce(t, rank);
    OneSlot(t, d, j, e, l);
  }

  lemma OneSlot(t: Tree, d: nat, j: int, e: nat, l: int)
    requires LinkedOnce(t) && IsFile(t, d, j) && IsFile(t, e, l) && t[d][j].ino == t[e][l].ino
    ensures d == e && j == l
  {
  }

  lemma {:induction false} WashNames(cs: seq<string>)
    requires Names16(cs)
    ensures Names16(Wash(cs))
  {
    if cs != [] { WashNames(cs[..|cs| - 1]); }
  }

  // ----- the exact condition

  /** A path to a directory is never harmed. */
  lemma WashKeepsDirs(t: Tree, rank: map<nat, nat>, cs: seq<string>)
    requires TreeOk(t, rank) && Names16(cs) && AllComponents(cs) && IsDir(Search(t, cs))
    ensures SameFile(Search(t, cs), Search(t, Wash(cs)))
  {
    hide TreeOk, Search;
    FrontIsDirs(t, rank, cs);
    DirsAllTheWay(t, rank, cs);
    WashPreservesLookup(t, rank, cs);
  }

  /** The path up to the file, washed. */
  lemma WashedHead(t: Tree, rank: map<nat, nat>, cs: seq<string>)
    requires TreeOk(t, rank) && Names16(cs) && AllComponents(cs) && FileAt(t, cs, |cs|)
    ensures var u := Wash(cs);
            Washed(u) && Names16(u) && SameFile(Search(t, cs), Search(t, u)) && FileAt(t, u, |u|)
  {
    hide TreeOk, Search;
    var front := cs[..|cs| - 1];
    assert cs[..|cs|] == cs;
    var _, _ := FileSlot(t, rank, cs);
    WashCleans(cs);
    WashNames(cs);
    WashKeepsDirs(t, rank, front);
    DirsAllTheWay(t, rank, cs);
    WashPreservesLookup(t, rank, cs);
    var u := Wash(cs);
    assert u == Wash(front) + [cs[|cs| - 1]];
    assert u[..|u| - 1] == Wash(front) && u[..|u|] == u;
  }

  /** If a regular file ends the walk, washing keeps what the path names if and only if no later
      ".." undoes a name of the path up to the file. */
  lemma WashExact(t: Tree, rank: map<nat, nat>, cs: seq<string>, n: nat)
    requires TreeOk(t, rank) && Names16(cs) && AllComponents(cs) && FileAt(t, cs, n)
    ensures SameFile(Search(t, cs), Search(t, Wash(cs))) <==> Wash(cs[..n]) <= Wash(cs)
  {
    hide TreeOk, Search, Wash;
    var head := cs[..n];
    assert head[..n] == head && head[..n - 1] == cs[..n - 1];
    WashedHead(t, rank, head);
    WalkEnds(t, cs, n);
    WashCleans(cs);
    WashNames(cs);
    var u, w := Wash(head), Wash(cs);
    if u <= w {
      assert w[..|u|] == u;
      WalkEnds(t, w, |u|);
    } else if SameFile(Search(t, cs), Search(t, w)) {
      var m := FileEndsWalk(t, rank, w);
      var v := w[..m];
      assert v[..m] == v && v[..m - 1] == w[..m - 1];
      FilePathIsUnique(t, rank, u, v);
    }
  }

  lemma WalkEnds(t: Tree, cs: seq<string>, n: nat)
    requires n <= |cs| && Search(t, cs[..n]).Found? && Search(t, cs[..n]).ftype == FT_REGULAR
    ensures Search(t, cs) == Search(t, cs[..n])
  {
    SearchPrefix(t, cs, n);
  }

  // ----- paths that end at a missing name

  /** Name `n` of the path is the first that is missing. */
  ghost predicate MissingAt(t: Tree, cs: seq<string>, n: nat) {
    0 < n <= |cs| && IsDir(Search(t, cs[..n - 1])) && Search(t, cs[..n]).Missing?
  }

  lemma MissingIsNoDot(t: Tree, rank: map<nat, nat>, cs: seq<string>, n: nat)
    requires Names16(cs) && MissingAt(t, cs, n)
    requires TreeOk(t, rank)
    ensures cs[n - 1] != "." && cs[n - 1] != ".." && Search(t, cs) == Search(t, cs[..n])
  {
    hide TreeOk, Step;
    assert cs[..n][..n - 1] == cs[..n - 1];
    SearchKinds(t, rank, cs[..n - 1]);
    StepKinds(t, rank, Search(t, cs[..n - 1]).ino, cs[n - 1], n);
    SearchPrefix(t, cs, n);
  }

  /** The washed path up to the missing name is missing there too. */
  lemma MissingHead(t: Tree, rank: map<nat, nat>, cs: seq<string>, n: nat)
    requires Names16(cs) && AllComponents(cs) && MissingAt(t, cs, n)
    requires TreeOk(t, rank)
    ensures Search(t, cs) == Search(t, cs[..n])
    ensures IsDir(Search(t, Wash(cs[..n - 1]))) && Wash(cs[..n]) == Wash(cs[..n - 1]) + [cs[n - 1]]
    ensures Search(t, Wash(cs[..n])).Missing?
  {
    hide TreeOk, Search;
    var head, front := cs[..n], cs[..n - 1];
    assert head[..n - 1] == front;
    MissingIsNoDot(t, rank, cs, n);
    WashKeepsDirs(t, rank, front);
    DirsAllTheWay(t, rank, head);
    WashPreservesLookup(t, rank, head);
  }

  /** The names of a clean path before the last are directories if the path leads to one, or if only
      its last name is missing. */
  lemma DirsInFront(t: Tree, rank: map<nat, nat>, cs: seq<string>, k: nat)
    requires k < |cs| && Names16(cs) && IsDir(Search(t, cs[..|cs| - 1]))
    requires TreeOk(t, rank)
    ensures IsDir(Search(t, cs[..k]))
  {
    hide TreeOk, Search;
    var front := cs[..|cs| - 1];
    SearchKinds(t, rank, front[..k]);
    SearchPrefix(t, front, k);
    assert front[..k] == cs[..k];
  }

  /** After the same `k` names, which lead to a directory, the paths go on with different ones. */
  ghost predicate TurnsOff(t: Tree, u: seq<string>, w: seq<string>, k: nat) {
    k < |u| && k < |w| && u[..k] == w[..k] && u[k] != w[k] && IsDir(Search(t, w[..k]))
  }

  lemma {:induction false} FirstDifference(u: seq<string>, w: seq<string>) returns (k: nat)
    requires !(u <= w) && !(w <= u)
    ensures k < |u| && k < |w| && u[..k] == w[..k] && u[k] != w[k]
  {
    if u[0] != w[0] {
      k := 0;
    } else {
      k := FirstDifference(u[1..], w[1..]);
      assert u[..k + 1] == [u[0]] + u[1..][..k] && w[..k + 1] == [w[0]] + w[1..][..k];
      k := k + 1;
    }
  }

  /** If a missing name ends the walk, the washed path goes on with that name and is missing too, or
      it stops before it and finds a directory, or it turns off at another name before, and then
      keeps what the path names if and only if what it turns to is missing as well. */
  lemma WashMissing(t: Tree, rank: map<nat, nat>, cs: seq<string>, n: nat)
    requires Names16(cs) && AllComponents(cs) && MissingAt(t, cs, n)
    requires TreeOk(t, rank)
    ensures var u, w := Wash(cs[..n]), Wash(cs);
            && (u <= w ==> SameFile(Search(t, cs), Search(t, w)))
            && (w < u ==> IsDir(Search(t, w)) && !SameFile(Search(t, cs), Search(t, w)))
            && (!(u <= w) && !(w < u) ==>
                  && (exists k: nat :: TurnsOff(t, u, w, k))
                  && (SameFile(Search(t, cs), Search(t, w)) <==> exists m: nat :: MissingAt(t, w, m)))
  {
    hide TreeOk, Search, Wash;
    MissingHead(t, rank, cs, n);
    var u, w := Wash(cs[..n]), Wash(cs);
    WashNames(cs);
    WashNames(cs[..n]);
    assert u[..|u| - 1] == Wash(cs[..n - 1]);
    if u <= w {
      assert w[..|u|] == u;
      SearchPrefix(t, w, |u|);
    } else if w < u {
      DirsInFront(t, rank, u, |w|);
      assert u[..|w|] == w;
    } else {
      var k := FirstDifference(u, w);
      DirsInFront(t, rank, u, k);
      assert TurnsOff(t, u, w, k);
      SomeNameMissing(t, rank, w);
    }
  }

  lemma {:induction false} SomeNameMissing(t: Tree, rank: map<nat, nat>, cs: seq<string>)
    requires Names16(cs)
    requires TreeOk(t, rank)
    ensures Search(t, cs).Missing? <==> exists n: nat :: MissingAt(t, cs, n)
  {
    hide TreeOk, Step;
    assert cs[..|cs|] == cs;
    forall n: nat | MissingAt(t, cs, n) ensures Search(t, cs).Missing? {
      MissingIsNoDot(t, rank, cs, n);
    }
    if Search(t, cs).Missing? {
      var front := cs[..|cs| - 1];
      SearchKinds(t, rank, front);
      if IsDir(Search(t, front)) {
        assert MissingAt(t, cs, |cs|);
      } else {
        SomeNameMissing(t, rank, front);
        var n: nat :| MissingAt(t, front, n);
        assert front[..n] == cs[..n] && front[..n - 1] == cs[..n - 1];
        assert MissingAt(t, cs, n);
      }
    }
  }

  // ----- what goes wrong otherwise

  /** The root with one file, f, in it. */
  const ONE_FILE: seq<DirEntry> := NewDir(0, 0)[2 := DirEntry("f", 1, FT_REGULAR)]

  lemma OneFileOk()
    ensures TreeOk(map[0 := ONE_FILE], map[0 := 0])
  {
    hide NewDir, TreeOk, CanAdd;
    FirstEntryFits("f");
    FormatOk();
    assert FORMATTED[0] == NewDir(0, 0);
    OpKeepsTree(FORMATTED, map[0 := 0], Create(0, 2, "f", 1));
    assert After(FORMATTED, Create(0, 2, "f", 1)) == map[0 := ONE_FILE];
  }

  lemma OneFileNames()
    ensures First(ONE_FILE, "f") == 2 && ONE_FILE[2] == DirEntry("f", 1, FT_REGULAR) && First(ONE_FILE, "x") == -1
  {
    hide NewDir;
    FindFirstEntry("f", FT_REGULAR);
    NewDirNames(0, 0, "x");
    assert "f"[0] != "x"[0];
  }

  lemma WashedUp(c: string)
    requires c != "." && c != ".."
    ensures Wash([c, ".."]) == [] && Wash([c, "."]) == [c] && [c, ".."][..1] == [c] == [c, "."][..1] && [c][..0] == []
  {
    assert [c, ".."][..1] == [c] && [c, "."][..1] == [c] && [c][..0] == [];
    assert Wash([c]) == [c];
  }

  /** "/f/.." finds the file, its washed form the root; "/x/.." is missing, its washed form the root
      again; but "/f/." keeps its meaning. */
  lemma WashNeedsDirectories()
    ensures var t: Tree := map[0 := ONE_FILE];
            && TreeOk(t, map[0 := 0])
            && Search(t, ["f", ".."]) == Found(1, FT_REGULAR, 0) && Search(t, Wash(["f", ".."])) == Found(0, FT_DIRECTORY, 0)
            && Search(t, ["x", ".."]) == Missing(0, 1) && Search(t, Wash(["x", ".."])) == Found(0, FT_DIRECTORY, 0)
            && Search(t, ["f", "."]) == Search(t, Wash(["f", "."])) == Found(1, FT_REGULAR, 0)
  {
    hide NewDir, TreeOk, ONE_FILE, First, Wash;
    var t: Tree := map[0 := ONE_FILE];
    OneFileOk();
    OneFileNames();
    WashedUp("f");
    WashedUp("x");
    SearchPrefix(t, ["f", ".."], 1);
    SearchPrefix(t, ["f", "."], 1);
    SearchPrefix(t, ["x", ".."], 1);
    assert Search(t, []) == Found(0, FT_DIRECTORY, 0);
  }
}

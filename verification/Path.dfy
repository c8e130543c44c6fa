/** Path names: taking them apart and washing the dots out of them (fs/fs.c, shell/buildin_cmd.c). */
module Paths {
  import opened Util

  /** The characters before the first slash. */
  function NameLen(s: string): (n: nat)
    ensures n <= |s| && (forall i :: 0 <= i < n ==> s[i] != '/') && (n < |s| ==> s[n] == '/')
  {
    if s == "" || s[0] == '/' then 0 else 1 + NameLen(s[1..])
  }

  /** The names in a path, without the empty ones between repeated slashes. */
  function Components(s: string): seq<string>
    decreases |s|
  {
    if s == "" then []
    else if s[0] == '/' then Components(s[1..])
    else [s[..NameLen(s)]] + Components(s[NameLen(s)..])
  }

  predicate IsComponent(c: string) {
    c != "" && forall i :: 0 <= i < |c| ==> c[i] != '/'
  }

  predicate AllComponents(cs: seq<string>) {
    forall i :: 0 <= i < |cs| ==> IsComponent(cs[i])
  }

  lemma {:induction false} ComponentsAre(s: string)
    ensures AllComponents(Components(s))
    decreases |s|
  {
    if s != "" {
      if s[0] == '/' { ComponentsAre(s[1..]); } else { ComponentsAre(s[NameLen(s)..]); }
    }
  }

  lemma SlashSkipped(s: string, p: nat)
    requires p < |s| && s[p] == '/'
    ensures Components(s[p + 1..]) == Components(s[p..])
  {
    assert s[p..][1..] == s[p + 1..];
  }

  lemma NameTaken(s: string, n: nat)
    requires n <= |s| && (forall i :: 0 <= i < n ==> s[i] != '/') && (n < |s| ==> s[n] == '/')
    ensures n > 0 ==> Components(s) == [s[..n]] + Components(s[n..])
    ensures n == |s| ==> Components(s[n..]) == []
    ensures s == "" ==> Components(s) == []
  {
    NameLenIs(s, n);
  }

  lemma OneComponent(c: string)
    requires IsComponent(c)
    ensures Components(c) == [c]
  {
    NameTaken(c, |c|);
    assert c[..|c|] == c;
  }

  /** A slash separates the names before it from those behind it, and what has no slash is one name. */
  lemma {:induction false} ComponentsSplit(s: string, t: string)
    ensures Components(s + "/" + t) == Components(s) + Components(t)
    ensures IsComponent(t) ==> Components(t) == [t]
    decreases |s|
  {
    hide Components, IsComponent;
    if IsComponent(t) { OneComponent(t); }
    var u := s + "/" + t;
    if s == "" {
      NameTaken(s, 0);
      SlashSkipped(u, 0);
      assert u[0..] == u && u[1..] == t;
    } else if s[0] == '/' {
      SlashSkipped(s, 0);
      SlashSkipped(u, 0);
      assert s[0..] == s && u[0..] == u && u[1..] == s[1..] + "/" + t;
      ComponentsSplit(s[1..], t);
    } else {
      var n := NameLen(s);
      NameTaken(s, n);
      NameTaken(u, n);
      assert u[n..] == s[n..] + "/" + t && u[..n] == s[..n];
      ComponentsSplit(s[n..], t);
    }
  }

  /** Takes the top component off a path. The rest is None when the string is used up. */
  method PathParse(pathname: string) returns (rest: Option<string>, name: string)
    ensures var cs := Components(pathname);
            && (cs == [] ==> name == "" && rest.None?)
            && (cs != [] ==> name == cs[0] && name != "")
            && (cs != [] && rest.None? ==> cs[1..] == [])
            && (rest.Some? ==> cs != [] && Components(rest.value) == cs[1..])
    ensures rest.Some? ==> |rest.value| < |pathname| && rest.value != "" && rest.value[0] == '/'
  {
    hide Components;
    var p := 0;
    if pathname != "" && pathname[0] == '/' {
      p := 1;
      SlashSkipped(pathname, 0);
      assert pathname[0..] == pathname;
      while p < |pathname| && pathname[p] == '/'
        invariant 1 <= p <= |pathname| && Components(pathname[p..]) == Components(pathname)
      {
        SlashSkipped(pathname, p);
        p := p + 1;
      }
    }
    ghost var start := pathname[p..];
    assert p == 0 ==> start == pathname;
    name := "";
    ghost var from := p;
    while p < |pathname| && pathname[p] != '/'
      invariant from <= p <= |pathname| && name == pathname[from..p]
      invariant forall i :: from <= i < p ==> pathname[i] != '/'
    {
      name := name + [pathname[p]];
      p := p + 1;
    }
    NameTaken(start, p - from);
    assert start[p - from..] == pathname[p..] && start[..p - from] == name;
    if p == |pathname| {
      rest := None;
    } else {
      rest := Some(pathname[p..]);
    }
  }

  lemma {:induction false} NameLenIs(s: string, n: nat)
    requires n <= |s| && (forall i :: 0 <= i < n ==> s[i] != '/') && (n < |s| ==> s[n] == '/')
    ensures NameLen(s) == n
  {
    if n > 0 { NameLenIs(s[1..], n - 1); }
  }

  /** path_depth_cnt counts the names. Its buffer is not cleared before the first parse: for a path
      without names the answer depends on whether the buffer happens to start with a zero byte. */
  method PathDepthCnt(pathname: string, junk: string) returns (depth: nat)
    ensures Components(pathname) != [] ==> depth == |Components(pathname)|
    ensures Components(pathname) == [] ==> depth == if junk == "" then 0 else 1
  {
    var p, name := PathParse(pathname);
    ghost var cs := Components(pathname);
    if name == "" {
      name := junk;
    }
    depth := 0;
    ghost var left := if cs == [] && junk != "" then [junk] else cs;
    ghost var total := |left|;
    while name != ""
      invariant (name != "" <==> left != []) && depth + |left| == total
      invariant if p.None? then |left| <= 1 else left != [] && Components(p.value) == left[1..]
      decreases |left|
    {
      depth := depth + 1;
      name := "";
      left := left[1..];
      if p.Some? {
        p, name := PathParse(p.value);
      }
    }
  }

  // ----- writing a path

  /** "/a/b/c"; the empty sequence gives the empty string. */
  function Join(cs: seq<string>): (s: string)
  {
    if cs == [] then "" else Join(cs[..|cs| - 1]) + "/" + cs[|cs| - 1]
  }

  function Render(cs: seq<string>): string {
    if cs == [] then "/" else Join(cs)
  }

  lemma {:induction false} JoinFirst(c: string, cs: seq<string>)
    ensures Join([c] + cs) == "/" + c + Join(cs)
  {
    var all := [c] + cs;
    if cs == [] {
      assert all[..|all| - 1] == [];
    } else {
      assert all[..|all| - 1] == [c] + cs[..|cs| - 1] && all[|all| - 1] == cs[|cs| - 1];
      JoinFirst(c, cs[..|cs| - 1]);
      assert "/" + c + Join(cs[..|cs| - 1]) + "/" + cs[|cs| - 1] == "/" + c + (Join(cs[..|cs| - 1]) + "/" + cs[|cs| - 1]);
    }
  }

  /** Parsing a rendered path gives its components back. */
  lemma {:induction false} ComponentsOfJoin(cs: seq<string>)
    requires AllComponents(cs)
    ensures Components(Join(cs)) == cs && Components(Render(cs)) == cs
  {
    if cs == [] {
      assert Components("/") == Components("/"[1..]);
    } else {
      var rest := cs[1..];
      assert cs == [cs[0]] + rest;
      JoinFirst(cs[0], rest);
      ComponentsOfJoin(rest);
      JoinStart(rest);
      var t := cs[0] + Join(rest);
      assert Join(cs)[1..] == t;
      NameLenIs(t, |cs[0]|);
      assert t[..|cs[0]|] == cs[0] && t[|cs[0]|..] == Join(rest);
    }
  }

  lemma JoinStart(cs: seq<string>)
    ensures cs != [] ==> Join(cs) != "" && Join(cs)[0] == '/'
  {
    if cs != [] {
      assert cs == [cs[0]] + cs[1..];
      JoinFirst(cs[0], cs[1..]);
    }
  }

  // ----- washing

  function WashStep(stack: seq<string>, c: string): seq<string> {
    if c == ".." then (if stack == [] then [] else stack[..|stack| - 1])
    else if c == "." then stack
    else stack + [c]
  }

  /** What remains of `cs` after dropping every dot and every name undone by a double dot. */
  function Wash(cs: seq<string>): seq<string> {
    if cs == [] then [] else WashStep(Wash(cs[..|cs| - 1]), cs[|cs| - 1])
  }

  predicate Washed(cs: seq<string>) {
    AllComponents(cs) && forall i :: 0 <= i < |cs| ==> cs[i] != "." && cs[i] != ".."
  }

  /** The result has no empty component, no dot and no double dot. */
  lemma {:induction false} WashCleans(cs: seq<string>)
    requires AllComponents(cs)
    ensures Washed(Wash(cs))
  {
    if cs != [] { WashCleans(cs[..|cs| - 1]); }
  }

  /** A clean path stays as it is. */
  lemma {:induction false} WashKeepsClean(cs: seq<string>)
    requires Washed(cs)
    ensures Wash(cs) == cs
  {
    if cs != [] {
      WashKeepsClean(cs[..|cs| - 1]);
      assert cs == cs[..|cs| - 1] + [cs[|cs| - 1]];
    }
  }

  function WashPathOf(path: string): string {
    Render(Wash(Components(path)))
  }

  /** Washing twice is washing once. */
  lemma WashIdempotent(path: string)
    ensures WashPathOf(WashPathOf(path)) == WashPathOf(path)
    ensures Washed(Components(WashPathOf(path)))
  {
    var cs := Wash(Components(path));
    ComponentsAre(path);
    WashCleans(Components(path));
    ComponentsOfJoin(cs);
    WashKeepsClean(cs);
  }

  lemma {:induction false} WashShrinks(cs: seq<string>)
    ensures |Join(Wash(cs))| <= |Join(cs)|
  {
    if cs != [] {
      var stack := Wash(cs[..|cs| - 1]);
      WashShrinks(cs[..|cs| - 1]);
      if cs[|cs| - 1] != ".." && cs[|cs| - 1] != "." {
        assert (stack + [cs[|cs| - 1]])[..|stack|] == stack;
      }
    }
  }

  lemma {:induction false} JoinFits(s: string)
    ensures s != "" && s[0] == '/' ==> |Join(Components(s))| <= |s|
    ensures |Join(Components(s))| <= |s| + 1
    decreases |s|
  {
    if s != "" {
      if s[0] == '/' {
        JoinFits(s[1..]);
      } else {
        var n := NameLen(s);
        JoinFits(s[n..]);
        JoinFirst(s[..n], Components(s[n..]));
      }
    }
  }

  /** The washed path fits wherever the original did. */
  lemma WashedPathFits(path: string)
    requires path != "" && path[0] == '/'
    ensures |WashPathOf(path)| <= |path|
  {
    WashShrinks(Components(path));
    JoinFits(path);
  }

  /** strrchr(s, '/'), or -1. */
  function LastSlash(s: string): (k: int)
    ensures -1 <= k < |s| && (k >= 0 ==> s[k] == '/') && forall i :: k < i < |s| ==> s[i] != '/'
  {
    if s == "" then -1 else if s[|s| - 1] == '/' then |s| - 1 else LastSlash(s[..|s| - 1])
  }

  lemma LastSlashOfJoin(cs: seq<string>)
    requires cs != [] && IsComponent(cs[|cs| - 1])
    ensures LastSlash(Join(cs)) == |Join(cs[..|cs| - 1])|
  {
    var s, n, c := Join(cs), |Join(cs[..|cs| - 1])|, cs[|cs| - 1];
    assert s[n] == '/' && forall i :: n < i < |s| ==> s[i] == c[i - n - 1];
  }

  /** The loop of wash_path: append names, cut at the last slash for "..", skip ".". */
  method WashPath(oldAbsPath: string) returns (newAbsPath: string)
    requires oldAbsPath != "" && oldAbsPath[0] == '/'
    ensures newAbsPath == WashPathOf(oldAbsPath)
  {
    hide Components, Join, Wash, Render;
    ghost var cs := Components(oldAbsPath);
    ComponentsAre(oldAbsPath);
    var subPath, name := PathParse(oldAbsPath);
    NothingWashed(cs);
    if name == "" {
      return "/";
    }
    newAbsPath := "/";
    ghost var n := 0;
    while name != ""
      invariant n <= |cs| && newAbsPath == Render(Wash(cs[..n])) && (name != "" <==> n < |cs|)
      invariant n < |cs| ==> name == cs[n]
      invariant if subPath.None? then n + 1 >= |cs| else n < |cs| && Components(subPath.value) == cs[n + 1..]
      decreases |cs| - n
    {
      ghost var stack := Wash(cs[..n]);
      WashNext(cs, n);
      if ".." == name {
        var slashPtr := LastSlash(newAbsPath);
        CutLast(stack);
        if slashPtr != 0 {
          newAbsPath := newAbsPath[..slashPtr];
        } else {
          newAbsPath := newAbsPath[..slashPtr + 1];
        }
      } else if "." != name {
        AddLast(stack, name);
        if newAbsPath != "/" {
          newAbsPath := newAbsPath + "/";
        }
        newAbsPath := newAbsPath + name;
      }
      name := "";
      if subPath.Some? {
        subPath, name := PathParse(subPath.value);
      }
      n := n + 1;
    }
    assert cs[..n] == cs;
  }

  lemma NothingWashed(cs: seq<string>)
    ensures cs[..0] == [] && Render(Wash([])) == "/"
  {
  }

  lemma WashNext(cs: seq<string>, n: nat)
    requires n < |cs| && AllComponents(cs)
    ensures Washed(Wash(cs[..n])) && Wash(cs[..n + 1]) == WashStep(Wash(cs[..n]), cs[n])
  {
    WashCleans(cs[..n]);
    assert cs[..n + 1][..n] == cs[..n];
  }

  lemma CutLast(stack: seq<string>)
    requires Washed(stack)
    ensures var s, k := Render(stack), LastSlash(Render(stack));
            && 0 <= k < |s|
            && Render(WashStep(stack, "..")) == if k != 0 then s[..k] else s[..1]
  {
    if stack != [] {
      LastSlashOfJoin(stack);
      JoinStart(stack[..|stack| - 1]);
      JoinStart(stack);
    }
  }

  lemma AddLast(stack: seq<string>, c: string)
    requires Washed(stack) && IsComponent(c)
    ensures Render(stack) == "/" <==> stack == []
    ensures Render(stack + [c]) == (if stack == [] then "/" else Render(stack) + "/") + c
  {
    assert (stack + [c])[..|stack|] == stack;
    if stack != [] {
      assert Join(stack) == Join(stack[..|stack| - 1]) + "/" + stack[|stack| - 1];
      assert |Join(stack)| > 1;
    }
  }
}

/** The search of internal/backup/snapshot.go for the snapshots of a path or of its nearest
    ancestor that has some. */
module Ancestor {
  import opened CommonPrefix
  import opened Text

  // ---- lexical paths, as the standard library treats them -------------------------------------

  /** A cleaned path: rooted or not, and its names. */
  datatype Path = Path(rooted: bool, names: seq<string>)

  /** No empty name and no "."; ".." only at the start of a path that is not rooted. */
  ghost predicate Normal(p: Path) {
    && Plain('/', p.names)
    && (forall i :: 0 <= i < |p.names| ==> p.names[i] != "" && p.names[i] != ".")
    && (forall i :: 0 <= i < |p.names| && p.names[i] == ".." ==> !p.rooted)
    && (forall i, j :: 0 <= i < j < |p.names| && p.names[j] == ".." ==> p.names[i] == "..")
  }

  function Show(p: Path): string {
    if p.rooted then "/" + Join('/', p.names)
    else if p.names == [] then "."
    else Join('/', p.names)
  }

  /** One name after another: empty names and "." go, ".." takes the name before it. */
  function Fold(rooted: bool, done: seq<string>, cs: seq<string>): seq<string>
    decreases |cs|
  {
    if cs == [] then done
    else Fold(rooted, Folded(rooted, done, cs[0]), cs[1..])
  }

  function Folded(rooted: bool, done: seq<string>, c: string): seq<string> {
    if c == "" || c == "." then done
    else if c != ".." then done + [c]
    else if done != [] && done[|done| - 1] != ".." then done[..|done| - 1]
    else if rooted then done
    else done + [c]
  }

  /** What filepath.Clean makes of a path, before it is written out. */
  function CleanPath(s: string): Path {
    if s == "" then Path(false, [])
    else Path(s[0] == '/', Fold(s[0] == '/', [], Components('/', s)))
  }

  /** filepath.Clean. */
  function Clean(s: string): string {
    Show(CleanPath(s))
  }

  /** What filepath.Dir makes of a path, before it is written out. */
  function DirPath(s: string): Path {
    CleanPath(s[..LastElement(s)])
  }

  /** filepath.Dir. */
  function Dir(s: string): string {
    Show(DirPath(s))
  }

  function Stripped(s: string): string {
    if s != "" && s[|s| - 1] == '/' then Stripped(s[..|s| - 1]) else s
  }

  /** filepath.Base. */
  function Base(s: string): string {
    if s == "" then "."
    else
      var t := Stripped(s);
      if t == "" then "/" else t[LastElement(t)..]
  }

  // ---- cleaned paths ---------------------------------------------------------------------------

  lemma {:induction false} FoldNames(p: Path, k: nat)
    requires Normal(p) && k <= |p.names|
    ensures Fold(p.rooted, p.names[..k], p.names[k..]) == p.names
    decreases |p.names| - k
  {
    hide Fold, Folded;
    if k < |p.names| {
      FoldNames(p, k + 1);
      NextName(p, k);
      FoldFirst(p.rooted, p.names[..k], p.names[k], p.names[k + 1..]);
      assert p.names[k..] == [p.names[k]] + p.names[k + 1..];
    } else {
      FoldNothing(p.rooted, p.names);
      assert p.names[..k] == p.names && p.names[k..] == [];
    }
  }

  lemma NextName(p: Path, k: nat)
    requires Normal(p) && k < |p.names|
    ensures Folded(p.rooted, p.names[..k], p.names[k]) == p.names[..k + 1]
  {
    assert p.names[..k] + [p.names[k]] == p.names[..k + 1];
    if k > 0 {
      assert p.names[..k][k - 1] == p.names[k - 1];
    }
  }

  lemma FoldFirst(rooted: bool, done: seq<string>, x: string, rest: seq<string>)
    ensures Fold(rooted, done, [x] + rest) == Fold(rooted, Folded(rooted, done, x), rest)
  {
    assert ([x] + rest)[1..] == rest;
  }

  lemma FoldNothing(rooted: bool, done: seq<string>)
    ensures Fold(rooted, done, []) == done
  {
  }

  lemma {:induction false} FoldCat(rooted: bool, done: seq<string>, a: seq<string>, b: seq<string>)
    ensures Fold(rooted, done, a + b) == Fold(rooted, Fold(rooted, done, a), b)
    decreases |a|
  {
    hide Fold, Folded;
    if a == [] {
      FoldNothing(rooted, done);
      assert a + b == b;
    } else {
      var x, rest := a[0], a[1..];
      FoldCat(rooted, Folded(rooted, done, x), rest, b);
      FoldFirst(rooted, done, x, rest);
      FoldFirst(rooted, done, x, rest + b);
      assert a == [x] + rest && a + b == [x] + (rest + b);
    }
  }

  lemma {:induction false} JoinCat(a: seq<string>, b: seq<string>)
    requires a != [] && b != []
    ensures Join('/', a + b) == Join('/', a) + ['/'] + Join('/', b)
  {
    if |a| == 1 {
      assert (a + b)[1..] == b;
    } else {
      JoinCat(a[1..], b);
      assert (a + b)[1..] == a[1..] + b;
    }
  }

  lemma ComponentsCat(a: string, b: string)
    ensures Components('/', a + ['/'] + b) == Components('/', a) + Components('/', b)
  {
    JoinComponents('/', a);
    JoinComponents('/', b);
    JoinCat(Components('/', a), Components('/', b));
    ComponentsJoin('/', Components('/', a) + Components('/', b));
  }

  /** The components of a cleaned path fold to its names. */
  lemma ShowFolds(p: Path)
    requires Normal(p)
    ensures Show(p) != "" && (Show(p)[0] == '/' <==> p.rooted)
    ensures Fold(p.rooted, [], Components('/', Show(p))) == p.names
  {
    FoldNames(p, 0);
    assert p.names[..0] == [] && p.names[0..] == p.names;
    if p.names != [] {
      ComponentsJoin('/', p.names);
      JoinStarts(p.names);
    }
    if p.rooted {
      assert Show(p)[1..] == Join('/', p.names);
      assert ([""] + Components('/', Join('/', p.names)))[1..] == Components('/', Join('/', p.names));
      if p.names == [] {
        assert Fold(true, [], [""]) == Fold(true, [], [""][1..]) == [];
      }
    } else if p.names == [] {
      OneComponent('/', ".");
      assert Fold(false, [], ["."]) == Fold(false, [], ["."][1..]) == [];
    }
  }

  lemma JoinStarts(cs: seq<string>)
    requires cs != [] && Plain('/', cs) && cs[0] != ""
    ensures Join('/', cs) != "" && Join('/', cs)[0] != '/'
  {
    assert cs[0][0] in cs[0];
  }

  /** Cleaning a cleaned path changes nothing. */
  lemma CleanShow(p: Path)
    requires Normal(p)
    ensures Clean(Show(p)) == Show(p)
  {
    ShowFolds(p);
  }

  lemma {:induction false} FoldNormal(rooted: bool, done: seq<string>, cs: seq<string>)
    requires Normal(Path(rooted, done)) && Plain('/', cs)
    ensures Normal(Path(rooted, Fold(rooted, done, cs)))
    decreases |cs|
  {
    if cs != [] {
      FoldedNormal(rooted, done, cs[0]);
      FoldNormal(rooted, Folded(rooted, done, cs[0]), cs[1..]);
    }
  }

  lemma FoldedNormal(rooted: bool, done: seq<string>, c: string)
    requires Normal(Path(rooted, done)) && '/' !in c
    ensures Normal(Path(rooted, Folded(rooted, done, c)))
  {
    var r := Folded(rooted, done, c);
    if c == ".." && r == done + [c] {
      assert forall i :: 0 <= i < |done| ==> done[i] == "..";
    }
  }

  /** Every path cleans to a cleaned path. */
  lemma CleanIsNormal(s: string)
    ensures Normal(CleanPath(s))
  {
    hide Fold, Components, Join;
    if s != "" {
      JoinComponents('/', s);
      FoldNormal(s[0] == '/', [], Components('/', s));
    }
  }

  function Parent(p: Path): Path {
    if p.names == [] then p else Path(p.rooted, p.names[..|p.names| - 1])
  }

  function Up(p: Path, k: nat): Path
    requires k <= |p.names|
  {
    Path(p.rooted, p.names[..k])
  }

  // ---- Dir and Base of cleaned paths -------------------------------------------------------------

  /** What stands before the last name. */
  function Before(p: Path): string
    requires p.names != []
  {
    (if p.rooted then "/" else "") + Flat('/', p.names[..|p.names| - 1])
  }

  lemma {:induction false} JoinLast(cs: seq<string>)
    requires cs != []
    ensures Join('/', cs) == Flat('/', cs[..|cs| - 1]) + cs[|cs| - 1]
  {
    if |cs| > 1 {
      JoinLast(cs[1..]);
      assert cs[1..][..|cs| - 2] == cs[..|cs| - 1][1..];
    }
  }

  lemma {:induction false} FlatEnds(cs: seq<string>)
    ensures cs != [] ==> Flat('/', cs) != "" && Flat('/', cs)[|Flat('/', cs)| - 1] == '/'
    ensures cs == [] ==> Flat('/', cs) == ""
  {
    if cs != [] {
      FlatEnds(cs[1..]);
    }
  }

  lemma LastElementOf(a: string, b: string)
    requires '/' !in b && (a != "" ==> a[|a| - 1] == '/')
    ensures LastElement(a + b) == |a|
  {
    var s, r := a + b, LastElement(a + b);
    assert forall j :: |a| <= j < |s| ==> s[j] == b[j - |a|];
    if a != "" {
      assert s[|a| - 1] == '/';
    }
  }

  lemma SplitShow(p: Path)
    requires Normal(p) && p.names != []
    ensures Show(p) == Before(p) + p.names[|p.names| - 1]
    ensures LastElement(Show(p)) == |Before(p)|
  {
    var last := p.names[|p.names| - 1];
    JoinLast(p.names);
    FlatEnds(p.names[..|p.names| - 1]);
    hide Normal, Join, Flat, LastElement;
    assert Show(p) == Before(p) + last;
    LastElementOf(Before(p), last);
  }

  lemma {:induction false} ComponentsFlat(cs: seq<string>)
    requires Plain('/', cs)
    ensures Components('/', Flat('/', cs)) == cs + [""]
  {
    if cs != [] {
      ComponentsFlat(cs[1..]);
      ComponentsAppend('/', cs[0], Flat('/', cs[1..]));
      assert cs + [""] == [cs[0]] + (cs[1..] + [""]);
    }
  }

  lemma ParentNormal(p: Path, k: nat)
    requires Normal(p) && k <= |p.names|
    ensures Normal(Up(p, k))
  {
  }

  lemma FoldInit(p: Path)
    requires Normal(p)
    ensures Fold(p.rooted, [], p.names + [""]) == p.names
    ensures Fold(p.rooted, [], [""] + (p.names + [""])) == p.names
  {
    FoldNames(p, 0);
    assert p.names[..0] == [] && p.names[0..] == p.names;
    FoldCat(p.rooted, [], p.names, [""]);
    assert Fold(p.rooted, p.names, [""]) == Fold(p.rooted, p.names, [""][1..]) == p.names;
    assert ([""] + (p.names + [""]))[1..] == p.names + [""];
  }

  lemma CleanBefore(p: Path)
    requires Normal(p) && p.names != []
    ensures Clean(Before(p)) == Show(Parent(p))
  {
    var q := Parent(p);
    ParentNormal(p, |p.names| - 1);
    ComponentsFlat(q.names);
    FoldInit(q);
    hide Fold, Flat;
    if p.rooted {
      assert Before(p)[1..] == Flat('/', q.names);
      assert Components('/', Before(p)) == [""] + (q.names + [""]);
    } else if q.names != [] {
      FlatStarts(q.names);
      assert Before(p) == Flat('/', q.names);
    } else {
      FlatEnds(q.names);
      assert Before(p) == "";
    }
  }

  lemma FlatStarts(cs: seq<string>)
    requires cs != [] && Plain('/', cs) && cs[0] != ""
    ensures Flat('/', cs) != "" && Flat('/', cs)[0] != '/'
  {
    assert cs[0][0] in cs[0];
  }

  /** Dir drops the last name and Base is that name; a path without names is its own parent. */
  lemma DirBase(p: Path)
    requires Normal(p)
    ensures Dir(Show(p)) == Show(Parent(p))
    ensures p.names != [] ==> Base(Show(p)) == p.names[|p.names| - 1]
    ensures Dir(Show(p)) == Show(p) <==> p.names == []
  {
    if p.names != [] {
      SplitShow(p);
      CleanBefore(p);
      assert Show(p)[..|Before(p)|] == Before(p);
      BaseLast(p);
      ParentNormal(p, |p.names| - 1);
      ShowFolds(p);
      ShowFolds(Parent(p));
      assert Parent(p).names != p.names;
    } else if p.rooted {
      assert Show(p) == "/" && LastElement("/") == 1;
      CleanShow(p);
    } else {
      LastElementOf("", ".");
      assert "" + "." == ".";
    }
  }

  lemma BaseLast(p: Path)
    requires Normal(p) && p.names != []
    ensures Base(Show(p)) == p.names[|p.names| - 1]
  {
    SplitShow(p);
    var s, last := Show(p), p.names[|p.names| - 1];
    assert last[|last| - 1] in last;
    assert s[|s| - 1] == last[|last| - 1];
    assert Stripped(s) == s;
  }

  // ---- paths of any kind -------------------------------------------------------------------------

  /** The name adds to a cleaned path, instead of leaving it as it is or taking its last name. */
  predicate Adds(p: Path, name: string) {
    && name != "."
    && (name == ".." ==> !p.rooted && (p.names == [] || p.names[|p.names| - 1] == ".."))
  }

  /** The name takes the last name of the cleaned path away. */
  predicate Pops(p: Path, name: string) {
    name == ".." && p.names != [] && p.names[|p.names| - 1] != ".."
  }

  lemma FoldedAdds(p: Path, name: string)
    requires Normal(p) && name != ""
    ensures Adds(p, name) ==> Folded(p.rooted, p.names, name) == p.names + [name]
    ensures Pops(p, name) ==> Folded(p.rooted, p.names, name) == p.names[..|p.names| - 1]
    ensures !Adds(p, name) && !Pops(p, name) ==> Folded(p.rooted, p.names, name) == p.names
    ensures !(Adds(p, name) && Pops(p, name))
  {
    if p.names != [] && p.rooted {
      assert p.names[|p.names| - 1] != "..";
    }
  }

  lemma FoldOne(rooted: bool, done: seq<string>, name: string)
    ensures Fold(rooted, done, [name]) == Folded(rooted, done, name)
  {
    hide Folded;
    FoldFirst(rooted, done, name, []);
    FoldNothing(rooted, Folded(rooted, done, name));
    assert [name] + [] == [name];
  }

  lemma BaseOf(s: string)
    ensures Base(s) != ""
    ensures s != "" && s[|s| - 1] != '/' ==> Base(s) == s[LastElement(s)..] && '/' !in Base(s)
    ensures Stripped(s) == "" && s != "" ==> Base(s) == "/"
    ensures Stripped(s) != "" ==> Base(s) == Base(Stripped(s)) && '/' !in Base(s)
  {
    StrippedEnds(s);
  }

  lemma {:induction false} StrippedEnds(s: string)
    ensures Stripped(s) != "" ==> Stripped(s)[|Stripped(s)| - 1] != '/'
    ensures Stripped(Stripped(s)) == Stripped(s)
  {
    if s != "" && s[|s| - 1] == '/' {
      StrippedEnds(s[..|s| - 1]);
    }
  }

  /** A name after a separator is one more step. */
  lemma CleanAfter(a: string, name: string)
    requires a != "" && '/' !in name
    ensures CleanPath(a + ['/'] + name) == Path(CleanPath(a).rooted, Folded(CleanPath(a).rooted, CleanPath(a).names, name))
  {
    hide Fold, Folded, Components;
    var cs := Components('/', a);
    ComponentsCat(a, name);
    OneComponent('/', name);
    FoldCat(a[0] == '/', [], cs, [name]);
    FoldOne(a[0] == '/', Fold(a[0] == '/', [], cs), name);
  }

  /** A separator at the end changes nothing. */
  lemma CleanTrailing(a: string)
    requires a != ""
    ensures CleanPath(a + ['/']) == CleanPath(a)
  {
    CleanAfter(a, "");
    hide Fold;
    assert a + ['/'] + "" == a + ['/'];
  }

  lemma CleanSlash(name: string)
    requires '/' !in name
    ensures CleanPath("/" + name) == Path(true, Folded(true, [], name))
  {
    hide Fold, Folded, Components;
    ComponentsCat("", name);
    OneComponent('/', name);
    OneComponent('/', "");
    FoldFirst(true, [], "", [name]);
    FoldOne(true, [], name);
    EmptyFolds(true, []);
    assert "" + ['/'] + name == "/" + name;
  }

  lemma EmptyFolds(rooted: bool, done: seq<string>)
    ensures Folded(rooted, done, "") == done
  {
  }

  lemma CleanName(name: string)
    requires name != "" && '/' !in name
    ensures CleanPath(name) == Path(false, Folded(false, [], name))
  {
    hide Fold, Folded, Components;
    OneComponent('/', name);
    FoldOne(false, [], name);
    assert name[0] in name;
  }

  lemma CleanBehind(a: string, name: string)
    requires (a != "" ==> a[|a| - 1] == '/') && name != "" && '/' !in name
    ensures CleanPath(a + name) == Path(CleanPath(a).rooted, Folded(CleanPath(a).rooted, CleanPath(a).names, name))
  {
    if a == "" {
      CleanName(name);
      assert a + name == name;
    } else if |a| == 1 {
      CleanSlash(name);
      CleanRoot();
      assert a == "/";
    } else {
      BehindSlash(a[..|a| - 1], name);
      assert a == a[..|a| - 1] + ['/'];
    }
  }

  lemma BehindSlash(c: string, name: string)
    requires c != "" && '/' !in name
    ensures
      var a := c + ['/'];
      CleanPath(a + name) == Path(CleanPath(a).rooted, Folded(CleanPath(a).rooted, CleanPath(a).names, name))
  {
    hide *;
    CleanTrailing(c);
    CleanAfter(c, name);
  }

  lemma CleanRoot()
    ensures CleanPath("/") == Path(true, []) && Clean("/") == "/"
  {
    hide Fold, Folded, Components;
    CleanSlash("");
    EmptyFolds(true, []);
    assert "/" + "" == "/";
  }

  /** Of a path that does not end in a separator, the last element is the last step. */
  lemma CleanSplit(s: string)
    requires s != "" && s[|s| - 1] != '/'
    ensures
      var q := DirPath(s);
      Normal(q) && CleanPath(s) == Path(q.rooted, Folded(q.rooted, q.names, Base(s)))
  {
    hide CleanPath, Folded, Normal, Stripped, Base;
    BaseOf(s);
    CleanIsNormal(s[..LastElement(s)]);
    CleanBehind(s[..LastElement(s)], Base(s));
    assert s == s[..LastElement(s)] + s[LastElement(s)..];
  }

  /** Of a path that ends in a separator, Dir is the path itself, cleaned. */
  lemma CleanEnds(s: string)
    requires s != "" && s[|s| - 1] == '/'
    ensures DirPath(s) == CleanPath(s) && Normal(CleanPath(s))
    ensures Stripped(s) == "" ==> CleanPath(s) == Path(true, [])
    ensures Stripped(s) != "" ==>
      var q := DirPath(Stripped(s));
      Normal(q) && CleanPath(s) == Path(q.rooted, Folded(q.rooted, q.names, Base(s)))
  {
    CleanIsNormal(s);
    StrippedClean(s);
    StrippedEnds(s);
    BaseOf(s);
    hide CleanPath, Folded, Normal, Stripped, Base;
    if Stripped(s) != "" {
      CleanSplit(Stripped(s));
    }
    assert s[..|s|] == s;
  }

  lemma {:induction false} StrippedClean(s: string)
    requires s != ""
    ensures Stripped(s) == "" ==> CleanPath(s) == Path(true, [])
    ensures Stripped(s) != "" ==> CleanPath(s) == CleanPath(Stripped(s))
  {
    hide CleanPath;
    if s[|s| - 1] == '/' {
      var t := s[..|s| - 1];
      assert s == t + ['/'];
      if t == "" {
        CleanRoot();
        assert s == "/";
      } else {
        StrippedClean(t);
        CleanTrailing(t);
      }
    }
  }

  // ---- the walk ends -----------------------------------------------------------------------------

  /** The bytes of the components, each with its separator. */
  function Weight(cs: seq<string>): nat {
    if cs == [] then 0 else |cs[0]| + 1 + Weight(cs[1..])
  }

  function Empties(cs: seq<string>): nat {
    if cs == [] then 0 else (if cs[0] == "" then 1 else 0) + Empties(cs[1..])
  }

  lemma {:induction false} ComponentsWeigh(s: string)
    ensures Weight(Components('/', s)) == |s| + 1
  {
    if s != "" {
      ComponentsWeigh(s[1..]);
      var r := Components('/', s[1..]);
      assert Components('/', s)[1..] == if s[0] == '/' then r else r[1..];
    }
  }

  lemma {:induction false} JoinWeighs(cs: seq<string>)
    requires cs != []
    ensures |Join('/', cs)| == Weight(cs) - 1
  {
    if |cs| > 1 {
      JoinWeighs(cs[1..]);
    } else {
      assert cs[1..] == [];
    }
  }

  lemma {:induction false} CatWeighs(a: seq<string>, b: seq<string>)
    ensures Weight(a + b) == Weight(a) + Weight(b)
    ensures Empties(a + b) == Empties(a) + Empties(b)
  {
    if a == [] {
      assert a + b == b;
    } else {
      CatWeighs(a[1..], b);
      assert (a + b)[1..] == a[1..] + b;
    }
  }

  lemma OneWeighs(c: string)
    ensures Weight([c]) == |c| + 1 && Empties([c]) == if c == "" then 1 else 0
  {
    assert [c][1..] == [];
  }

  lemma FoldedWeighs(rooted: bool, done: seq<string>, c: string)
    ensures Weight(Folded(rooted, done, c)) + (if c == "" then 1 else 0) <= Weight(done) + |c| + 1
  {
    OneWeighs(c);
    CatWeighs(done, [c]);
    if done != [] {
      var n := |done| - 1;
      CatWeighs(done[..n], [done[n]]);
      assert done == done[..n] + [done[n]];
    }
  }

  /** Folding never adds, and loses at least the empty names. */
  lemma {:induction false} FoldWeighs(rooted: bool, done: seq<string>, cs: seq<string>)
    ensures Weight(Fold(rooted, done, cs)) + Empties(cs) <= Weight(done) + Weight(cs)
    decreases |cs|
  {
    if cs != [] {
      FoldedWeighs(rooted, done, cs[0]);
      FoldWeighs(rooted, Folded(rooted, done, cs[0]), cs[1..]);
    }
  }

  lemma FirstSlash(s: string)
    requires s != "" && s[0] == '/'
    ensures Empties(Components('/', s)) >= 1
  {
  }

  lemma LastSlash(s: string)
    requires s != "" && s[|s| - 1] == '/'
    ensures Empties(Components('/', s)) == Empties(Components('/', s[..|s| - 1])) + 1
  {
    hide *;
    var a := s[..|s| - 1];
    assert s == a + ['/'] + "";
    ComponentsCat(a, "");
    OneComponent('/', "");
    OneWeighs("");
    CatWeighs(Components('/', a), [""]);
  }

  lemma SlashWeighs(s: string)
    requires s != ""
    ensures s[0] == '/' ==> Empties(Components('/', s)) >= 1
    ensures s[|s| - 1] == '/' ==> Empties(Components('/', s)) >= 1
    ensures |s| > 1 && s[0] == '/' && s[|s| - 1] == '/' ==> Empties(Components('/', s)) >= 2
  {
    hide Components, Empties;
    if s[0] == '/' {
      FirstSlash(s);
    }
    if s[|s| - 1] == '/' {
      LastSlash(s);
      if |s| > 1 && s[0] == '/' {
        FirstSlash(s[..|s| - 1]);
      }
    }
  }

  /** Cleaning never makes a path longer, and makes one that ends in a separator shorter. */
  lemma CleanShrinks(s: string)
    requires s != ""
    ensures |Clean(s)| <= |s|
    ensures |s| > 1 && s[|s| - 1] == '/' ==> |Clean(s)| < |s|
  {
    var rooted := s[0] == '/';
    var names := Fold(rooted, [], Components('/', s));
    ComponentsWeigh(s);
    FoldWeighs(rooted, [], Components('/', s));
    SlashWeighs(s);
    hide Fold, Components, Weight, Empties;
    if names != [] {
      JoinWeighs(names);
    }
    assert Weight([]) >= 0;
    ShowWeighs(Path(rooted, names));
  }

  lemma ShowWeighs(p: Path)
    ensures |Show(p)| == if p.names == [] then 1 else if p.rooted then Weight(p.names) else Weight(p.names) - 1
  {
    if p.names != [] {
      JoinWeighs(p.names);
    }
  }

  /** Dir of any path at all is the path itself, shorter, or the "." of a single letter. */
  lemma DirShrinks(s: string)
    requires s != ""
    ensures Dir(s) == s || |Dir(s)| < |s| || (|Dir(s)| == |s| && Dir(s) == "." && s != ".")
  {
    var t := s[..LastElement(s)];
    if t != "" {
      CleanShrinks(t);
      if |t| == 1 {
        assert t == "/";
        CleanShow(Path(true, []));
        assert Show(Path(true, [])) == "/";
      }
    }
  }

  // ---- the search ------------------------------------------------------------------------------------

  /** What the repository answers for one path. */
  datatype Listing<+T> = Listed(list: seq<T>) | Failed

  /** The last k, counting down, at which the answer is not an empty list. */
  ghost function Nearest<T>(lists: string -> Listing<T>, q: Path, k: nat): (r: int)
    requires k <= |q.names|
    ensures -1 <= r <= k
    ensures r >= 0 ==> lists(Show(Up(q, r))) != Listed([])
    ensures forall j :: r < j <= k ==> lists(Show(Up(q, j))) == Listed([])
  {
    if lists(Show(Up(q, k))) != Listed([]) then k
    else if k == 0 then -1
    else Nearest(lists, q, k - 1)
  }

  lemma {:induction false} NearestIs<T>(lists: string -> Listing<T>, q: Path, k: nat, r: nat)
    requires r <= k <= |q.names| && lists(Show(Up(q, r))) != Listed([])
    requires forall j :: r < j <= k ==> lists(Show(Up(q, j))) == Listed([])
    ensures Nearest(lists, q, k) == r
  {
    if r < k {
      NearestIs(lists, q, k - 1, r);
    }
  }

  /** What is left of a path above which the walk has climbed to Up(q, k). */
  function Rest(q: Path, k: nat, base: string): string
    requires k <= |q.names|
  {
    Join('/', q.names[k..] + [base])
  }

  lemma {:induction false} JoinEnds(cs: seq<string>)
    requires cs != [] && cs[|cs| - 1] != ""
    ensures Join('/', cs) != ""
  {
    if |cs| > 1 {
      JoinEnds(cs[1..]);
    }
  }

  lemma RestNext(q: Path, k: nat, base: string)
    requires k <= |q.names| && base != ""
    ensures Rest(q, k, base) != ""
    ensures k > 0 ==> Rest(q, k - 1, base) == q.names[k - 1] + "/" + Rest(q, k, base)
    ensures k == |q.names| ==> Rest(q, k, base) == base
  {
    JoinEnds(q.names[k..] + [base]);
    if k > 0 {
      assert (q.names[k - 1..] + [base])[1..] == q.names[k..] + [base];
    }
  }

  /** What the walk answers: the list or the failure of the path itself, or else of the nearest
      of the directories going up from Dir of the path, with the names below it. */
  ghost predicate Answers<T>(lists: string -> Listing<T>, path: string, found: Listing<T>, relPath: string) {
    if path == "" then found == Listed([]) && relPath == ""
    else if lists(path) != Listed([]) then found == lists(path) && relPath == ""
    else
      var q := DirPath(path);
      var k := Nearest(lists, q, |q.names|);
      if k < 0 then found == Listed([]) && relPath == ""
      else
        && found == lists(Show(Up(q, k)))
        && relPath == if found.Listed? then Rest(q, k, Base(path)) else ""
  }

  /** The loop stands at Up(q, k), having found nothing below. */
  ghost predicate At<T>(lists: string -> Listing<T>, q: Path, base: string, k: nat, p: string, relPath: string) {
    && k <= |q.names| && Normal(q) && base != ""
    && p == Show(Up(q, k)) && p != ""
    && relPath == Rest(q, k, base)
    && forall j :: k < j <= |q.names| ==> lists(Show(Up(q, j))) == Listed([])
  }

  /** The first turn of the loop. */
  lemma AtStart<T>(lists: string -> Listing<T>, path: string)
    requires path != "" && lists(path) == Listed([])
    ensures var q := DirPath(path); At(lists, q, Base(path), |q.names|, Dir(path), Base(path))
    ensures Dir(path) == path ==> var q := DirPath(path); Nearest(lists, q, |q.names|) == -1
  {
    hide DirPath, Show, Normal, Base, Nearest, Rest;
    var q := DirPath(path);
    StartOfWalk(path);
    if Dir(path) == path {
      NearestNothing(lists, q);
    }
  }

  lemma StartOfWalk(path: string)
    ensures
      var q, base := DirPath(path), Base(path);
      && Normal(q) && base != "" && Show(q) != "" && Up(q, |q.names|) == q
      && Rest(q, |q.names|, base) == base
      && (Dir(path) == path ==> q.names == [])
  {
    hide CleanPath, Show, Normal, Base, Rest;
    var q := DirPath(path);
    CleanIsNormal(path[..LastElement(path)]);
    BaseOf(path);
    RestNext(q, |q.names|, Base(path));
    ShowFolds(q);
    DirBase(q);
  }

  lemma NearestNothing<T>(lists: string -> Listing<T>, q: Path)
    requires q.names == [] && lists(Show(q)) == Listed([])
    ensures Nearest(lists, q, 0) == -1
  {
    hide Show;
    assert Up(q, 0) == q;
  }

  lemma AtAnswer<T>(lists: string -> Listing<T>, q: Path, base: string, k: nat, p: string, relPath: string)
    requires At(lists, q, base, k, p, relPath) && lists(p) != Listed([])
    ensures k <= |q.names| && Nearest(lists, q, |q.names|) == k
    ensures p == Show(Up(q, k)) && relPath == Rest(q, k, base)
  {
    hide Normal, Show, Join;
    NearestIs(lists, q, |q.names|, k);
  }

  /** Every other turn. */
  lemma AtTurn<T>(lists: string -> Listing<T>, q: Path, base: string, k: nat, p: string, relPath: string)
    requires At(lists, q, base, k, p, relPath) && lists(p) == Listed([])
    ensures |relPath| > 0
    ensures Dir(p) == p ==> Nearest(lists, q, |q.names|) == -1
    ensures Dir(p) != p ==> k > 0 && At(lists, q, base, k - 1, Dir(p), Base(p) + "/" + relPath)
  {
    hide Normal, Show, Join, Dir, Base, Rest;
    OneUp(q, k);
    RestNext(q, k, base);
    assert forall j :: k <= j <= |q.names| ==> lists(Show(Up(q, j))) == Listed([]);
  }

  /** The loop of findSnapshotsForSource.  It ends on every path. */
  method FindSnapshotsForSource<T>(lists: string -> Listing<T>, path: string)
    returns (found: Listing<T>, relPath: string)
    ensures Answers(lists, path, found, relPath)
  {
    hide Normal, Show, Join, Dir, DirPath, Base, Nearest, At, Up, Rest;
    ghost var q, base := DirPath(path), Base(path);
    ghost var k: nat := |q.names|;
    ghost var first := true;
    var p := path;
    relPath := "";
    while |p| > 0
      invariant first ==> p == path && relPath == "" && k == |q.names|
      invariant !first ==> path != "" && lists(path) == Listed([]) && At(lists, q, base, k, p, relPath)
      decreases |p|, if p == "." then 0 else 1
    {
      var list := lists(p);
      if !first && list != Listed([]) {
        AtAnswer(lists, q, base, k, p, relPath);
      }
      if list.Failed? {
        return Failed, "";
      }
      if |list.list| > 0 {
        return list, relPath;
      }
      if first {
        AtStart(lists, path);
      } else {
        AtTurn(lists, q, base, k, p, relPath);
      }
      if |relPath| > 0 {
        relPath := Base(p) + "/" + relPath;
      } else {
        relPath := Base(p);
      }
      var parentPath := Dir(p);
      DirShrinks(p);
      if parentPath == p {
        break;
      }
      p := parentPath;
      if !first {
        k := k - 1;
      }
      first := false;
    }
    if !first && |p| == 0 {
      AtSomewhere(lists, q, base, k, p, relPath);
    }
    return Listed([]), "";
  }

  lemma AtSomewhere<T>(lists: string -> Listing<T>, q: Path, base: string, k: nat, p: string, relPath: string)
    requires At(lists, q, base, k, p, relPath)
    ensures p != ""
  {
  }

  lemma OneUp(q: Path, k: nat)
    requires Normal(q) && k <= |q.names|
    ensures Dir(Show(Up(q, k))) == Show(Up(q, k)) <==> k == 0
    ensures k > 0 ==> Dir(Show(Up(q, k))) == Show(Up(q, k - 1)) != "" && Base(Show(Up(q, k))) == q.names[k - 1]
  {
    hide Dir, Base, Show, Normal, Clean;
    ParentNormal(q, k);
    DirBase(Up(q, k));
    if k > 0 {
      assert q.names[..k][..k - 1] == q.names[..k - 1];
      ParentNormal(q, k - 1);
      ShowFolds(Up(q, k - 1));
    }
  }

  // ---- what the answer means ---------------------------------------------------------------------------

  lemma ShowInjective(p: Path, q: Path)
    requires Normal(p) && Normal(q) && Show(p) == Show(q)
    ensures p == q
  {
    ShowFolds(p);
    ShowFolds(q);
  }

  /** filepath.Join of a path and a relative path. */
  function Joined(dir: string, rel: string): string {
    if rel == "" then Clean(dir) else Clean(dir + ['/'] + rel)
  }

  lemma CleanTwo(p: Path, rest: seq<string>)
    requires Normal(p) && Plain('/', rest) && rest != []
    ensures Clean(Show(p) + ['/'] + Join('/', rest)) == Show(Path(p.rooted, Fold(p.rooted, p.names, rest)))
  {
    ShowFolds(p);
    ComponentsCat(Show(p), Join('/', rest));
    ComponentsJoin('/', rest);
    FoldCat(p.rooted, [], Components('/', Show(p)), rest);
  }

  lemma JoinNothing()
    ensures Join('/', []) == ""
  {
  }

  lemma StepJoins(q: Path, k: nat, base: string)
    requires Normal(q) && k <= |q.names| && base != "" && '/' !in base
    ensures Joined(Show(Up(q, k)), Rest(q, k, base)) == Show(Path(q.rooted, Folded(q.rooted, q.names, base)))
  {
    ParentNormal(q, k);
    var rest := q.names[k..] + [base];
    assert Plain('/', rest);
    hide Normal, Plain, Fold, Folded, Clean, Show, Join;
    JoinEnds(rest);
    CleanTwo(Up(q, k), rest);
    FoldCat(q.rooted, q.names[..k], q.names[k..], [base]);
    FoldNames(q, k);
    FoldOne(q.rooted, q.names, base);
  }

  lemma StepNormal(q: Path, base: string)
    requires Normal(q) && base != "" && '/' !in base
    ensures
      var r := Path(q.rooted, Folded(q.rooted, q.names, base));
      Normal(r) && (Show(r) == Show(q) <==> !Adds(q, base) && !Pops(q, base))
  {
    FoldedNormal(q.rooted, q.names, base);
    FoldedAdds(q, base);
    hide Normal, Show, Folded;
    var r := Path(q.rooted, Folded(q.rooted, q.names, base));
    if Show(r) == Show(q) {
      ShowInjective(r, q);
    }
  }

  /** Above the path: the directory, joined with the names below it, is the path asked for, up to
      cleaning, exactly if the path does not end in a separator or its last element is "." or
      it is the root. */
  lemma JoinsBackIff(s: string, k: nat)
    requires s != "" && k <= |DirPath(s).names|
    ensures
      var q := DirPath(s);
      Joined(Show(Up(q, k)), Rest(q, k, Base(s))) == Clean(s) <==>
        s[|s| - 1] != '/' || Base(s) == "." || Clean(s) == "/"
  {
    hide *;
    if s[|s| - 1] != '/' {
      JoinsBackPlain(s, k);
    } else if Stripped(s) == "" {
      JoinsBackRoot(s, k);
    } else {
      JoinsBackEnds(s, k);
    }
  }

  /** Where the walk finds what it answers. */
  ghost function Where<T>(lists: string -> Listing<T>, s: string): string {
    var q := DirPath(s);
    var k := Nearest(lists, q, |q.names|);
    if s == "" || lists(s) != Listed([]) || k < 0 then s else Show(Up(q, k))
  }

  /** The directory whose snapshots are found, joined with the relative path, is the path asked
      for, up to cleaning, exactly if it is that path itself, or the path does not end in a
      separator, or its last element is ".", or it is the root. */
  lemma AnswerJoinsBackIff<T>(lists: string -> Listing<T>, s: string, found: Listing<T>, relPath: string)
    requires Answers(lists, s, found, relPath) && found.Listed? && found.list != []
    ensures lists(Where(lists, s)) == found
    ensures Joined(Where(lists, s), relPath) == Clean(s) <==>
      lists(s) != Listed([]) || s[|s| - 1] != '/' || Base(s) == "." || Clean(s) == "/"
  {
    hide CleanPath, DirPath, Base, Show, Rest, Nearest;
    if lists(s) == Listed([]) {
      JoinsBackIff(s, Nearest(lists, DirPath(s), |DirPath(s).names|));
    }
  }

  lemma JoinsBackPlain(s: string, k: nat)
    requires s != "" && s[|s| - 1] != '/' && k <= |DirPath(s).names|
    ensures var q := DirPath(s); Joined(Show(Up(q, k)), Rest(q, k, Base(s))) == Clean(s)
  {
    hide DirPath, Base, Show, Fold, Folded, CleanPath, Joined, Rest, Up, Normal;
    CleanSplit(s);
    BaseOf(s);
    StepJoins(DirPath(s), k, Base(s));
  }

  lemma JoinsBackRoot(s: string, k: nat)
    requires s != "" && s[|s| - 1] == '/' && Stripped(s) == "" && k <= |DirPath(s).names|
    ensures var q := DirPath(s); Joined(Show(Up(q, k)), Rest(q, k, Base(s))) == Clean(s) == "/"
  {
    hide DirPath, CleanPath, Base, Stripped, Fold, Folded, Components;
    CleanEnds(s);
    BaseOf(s);
    CleanRoot();
    CleanTrailing("/");
    CleanTrailing("//");
    assert "/" + ['/'] == "//" && "//" + ['/'] == "/" + ['/'] + "/";
    assert [] + ["/"] == ["/"];
  }

  lemma JoinsBackEnds(s: string, k: nat)
    requires s != "" && s[|s| - 1] == '/' && Stripped(s) != "" && k <= |DirPath(s).names|
    ensures
      var q := DirPath(s);
      Joined(Show(Up(q, k)), Rest(q, k, Base(s))) == Clean(s) <==> Base(s) == "." || Clean(s) == "/"
  {
    hide DirPath, Base, Show, Fold, Folded, CleanPath, Joined, Rest, Up, Normal, Stripped, Adds, Pops;
    var q, base := DirPath(s), Base(s);
    CleanEnds(s);
    BaseOf(s);
    StepJoins(q, k, base);
    StepNormal(q, base);
    EndsStays(s);
  }

  lemma EndsStays(s: string)
    requires s != "" && s[|s| - 1] == '/' && Stripped(s) != ""
    ensures !Adds(CleanPath(s), Base(s)) && !Pops(CleanPath(s), Base(s)) <==> Base(s) == "." || Clean(s) == "/"
  {
    hide DirPath, CleanPath, Base, Stripped, Fold, Folded, Normal;
    CleanEnds(s);
    BaseOf(s);
    FoldedAdds(DirPath(Stripped(s)), Base(s));
    StaysIff(CleanPath(s), Base(s));
    ShowIsRoot(CleanPath(s));
  }

  lemma StaysIff(p: Path, base: string)
    requires Normal(p)
    ensures !Adds(p, base) && !Pops(p, base) <==> base == "." || (base == ".." && p == Path(true, []))
  {
    if p.names != [] && p.rooted {
      assert p.names[|p.names| - 1] != "..";
    }
  }

  lemma ShowIsRoot(p: Path)
    requires Normal(p)
    ensures Show(p) == "/" <==> p == Path(true, [])
  {
    var root := Path(true, []);
    assert Normal(root) && Show(root) == "/";
    if Show(p) == "/" {
      ShowInjective(p, root);
    }
  }

  /** The directory found, joined with the relative path, is the path asked for. */
  lemma JoinsBack(q: Path, k: nat)
    requires Normal(q) && k <= |q.names|
    ensures Joined(Show(Up(q, k)), Join('/', q.names[k..])) == Show(q)
  {
    ParentNormal(q, k);
    if k == |q.names| {
      assert q.names[..k] == q.names && q.names[k..] == [];
      CleanShow(q);
    } else {
      JoinStarts(q.names[k..]);
      CleanTwo(Up(q, k), q.names[k..]);
      FoldNames(q, k);
    }
  }

  /** Names of directories, without "." and "..". */
  ghost predicate Ordinary(names: seq<string>) {
    && Plain('/', names)
    && forall i :: 0 <= i < |names| ==> names[i] != "" && names[i] != "." && names[i] != ".."
  }

  lemma {:induction false} FoldPlainNames(rooted: bool, done: seq<string>, rest: seq<string>)
    requires Ordinary(rest)
    ensures Fold(rooted, done, rest) == done + rest
    decreases |rest|
  {
    if rest != [] {
      FoldPlainNames(rooted, done + [rest[0]], rest[1..]);
      assert done + [rest[0]] + rest[1..] == done + rest;
    }
  }

  /** Whatever cleaned directory leads to a cleaned path through ordinary names has the first of
      its names. */
  lemma AncestorsArePrefixes(c: Path, d: Path, rest: seq<string>)
    requires Normal(c) && Normal(d) && Ordinary(rest)
    requires Joined(Show(d), Join('/', rest)) == Show(c)
    ensures |d.names| + |rest| == |c.names| && d == Up(c, |d.names|)
  {
    var r := Path(d.rooted, d.names + rest);
    if rest == [] {
      CleanShow(d);
      assert r == d;
    } else {
      JoinStarts(rest);
      CleanTwo(d, rest);
      FoldPlainNames(d.rooted, d.names, rest);
      FoldNormal(d.rooted, d.names, rest);
    }
    hide Normal, Show, Fold, Clean, Join, Plain, Ordinary;
    ShowInjective(r, c);
    assert c.names[..|d.names|] == d.names;
  }

  /** How the cleaned path stands to where the walk goes on after it. */
  lemma DirOf(s: string)
    requires s != ""
    ensures Normal(CleanPath(s)) && Normal(DirPath(s))
    ensures
      var c, q, base := CleanPath(s), DirPath(s), Base(s);
      && c.rooted == q.rooted
      && c.names == if s[|s| - 1] == '/' then q.names
                    else if Adds(q, base) then q.names + [base]
                    else if Pops(q, base) then q.names[..|q.names| - 1]
                    else q.names
  {
    hide CleanPath, DirPath, Base, Folded, Adds, Pops, Normal;
    CleanIsNormal(s);
    if s[|s| - 1] == '/' {
      CleanEnds(s);
    } else {
      CleanSplit(s);
      BaseOf(s);
      FoldedAdds(DirPath(s), Base(s));
    }
  }

  /** The walk asks for d, if it has not found anything before: as the path itself, just as it
      was given, or on the way up. */
  ghost predicate Tried(s: string, d: Path) {
    Show(d) == s || exists k :: 0 <= k <= |DirPath(s).names| && d == Up(DirPath(s), k)
  }

  /** Every ancestor of the path is tried, and so is the path itself, cleaned, unless it was given
      in another form that does not end in a separator and its last element is a name. */
  lemma AncestorsAreVisited(s: string, d: Path, rest: seq<string>)
    requires s != "" && Normal(d) && Ordinary(rest)
    requires Joined(Show(d), Join('/', rest)) == Clean(s)
    ensures Tried(s, d) <==> rest != [] || s == Clean(s) || s[|s| - 1] == '/' || !Adds(DirPath(s), Base(s))
  {
    hide CleanPath, DirPath, Base, Normal, Show, Joined, Join, Ordinary;
    var c, q, n := CleanPath(s), DirPath(s), |d.names|;
    DirOf(s);
    AncestorsArePrefixes(c, d, rest);
    if n <= |q.names| {
      assert c.names[..n] == q.names[..n];
      assert d == Up(q, n);
    } else {
      assert rest == [] && c.names[..n] == c.names;
      assert forall k :: 0 <= k <= |q.names| ==> |Up(q, k).names| == k;
    }
  }

  /** Every directory tried on the way up is an ancestor of the path or the path itself, cleaned,
      except the first when the last element is a ".." that takes it away again. */
  lemma StraysIff(s: string, k: nat)
    requires s != "" && k <= |DirPath(s).names|
    ensures
      var c, q := CleanPath(s), DirPath(s);
      (exists j :: 0 <= j <= |c.names| && Up(c, j) == Up(q, k)) <==>
        s[|s| - 1] == '/' || !(k == |q.names| && Pops(q, Base(s)))
  {
    hide CleanPath, DirPath, Base, Normal, Show;
    var c, q := CleanPath(s), DirPath(s);
    DirOf(s);
    if k <= |c.names| {
      assert c.names[..k] == q.names[..k];
      assert Up(c, k) == Up(q, k);
    } else {
      assert forall j :: 0 <= j <= |c.names| ==> |Up(c, j).names| == j;
    }
  }

  /** What is answered stands no higher than any ancestor that has something, and than the path
      itself, cleaned, if that is tried. */
  lemma NothingNearer<T>(lists: string -> Listing<T>, s: string, d: Path, rest: seq<string>, found: Listing<T>, relPath: string)
    requires Answers(lists, s, found, relPath)
    requires s != "" && lists(s) == Listed([])
    requires Normal(d) && Ordinary(rest) && Joined(Show(d), Join('/', rest)) == Clean(s)
    requires rest != [] || s[|s| - 1] == '/' || !Adds(DirPath(s), Base(s))
    requires lists(Show(d)) != Listed([])
    ensures
      var q := DirPath(s);
      var k := Nearest(lists, q, |q.names|);
      |d.names| <= k && d == Up(q, |d.names|) && found == lists(Show(Up(q, k))) != Listed([])
  {
    hide CleanPath, DirPath, Base, Adds, Normal, Show, Joined, Join, Ordinary, Nearest, Rest;
    AncestorsAreVisited(s, d, rest);
  }

  /** The list or failure the walk ends with. */
  ghost function FoundIn<T>(lists: string -> Listing<T>, s: string): Listing<T> {
    if s == "" then Listed([])
    else if lists(s) != Listed([]) then lists(s)
    else Climbed(lists, DirPath(s))
  }

  ghost function Climbed<T>(lists: string -> Listing<T>, q: Path): (r: Listing<T>)
    ensures r != Listed([]) <==> exists k :: 0 <= k <= |q.names| && lists(Show(Up(q, k))) != Listed([])
  {
    var k := Nearest(lists, q, |q.names|);
    if k < 0 then Listed([]) else lists(Show(Up(q, k)))
  }

  lemma AnswersFound<T>(lists: string -> Listing<T>, s: string, found: Listing<T>, relPath: string)
    requires Answers(lists, s, found, relPath)
    ensures found == FoundIn(lists, s)
  {
    hide DirPath, Show, Base;
  }

  lemma DirOfCleaned(p: Path)
    requires Normal(p)
    ensures Show(p) != "" && CleanPath(Show(p)) == p && DirPath(Show(p)) == Parent(p)
    ensures p.names != [] ==> Base(Show(p)) == p.names[|p.names| - 1]
  {
    ShowFolds(p);
    DirBase(p);
    CleanIsNormal(Show(p)[..LastElement(Show(p))]);
    ParentNormal(p, if p.names == [] then 0 else |p.names| - 1);
    hide Normal, Show, CleanPath, Base, Fold;
    ShowInjective(DirPath(Show(p)), Parent(p));
    CleanShow(p);
    CleanIsNormal(Show(p));
    ShowInjective(CleanPath(Show(p)), p);
  }

  lemma {:induction false} NearestSame<T>(lists: string -> Listing<T>, p: Path, q: Path, k: nat)
    requires k <= |p.names| && k <= |q.names| && Up(p, k) == Up(q, k)
    ensures Nearest(lists, p, k) == Nearest(lists, q, k)
  {
    hide Show;
    if k > 0 {
      assert p.names[..k][..k - 1] == p.names[..k - 1] && q.names[..k][..k - 1] == q.names[..k - 1];
      NearestSame(lists, p, q, k - 1);
    }
  }

  lemma CleanedFound<T>(lists: string -> Listing<T>, p: Path)
    requires Normal(p)
    ensures FoundIn(lists, Show(p)) == Climbed(lists, p)
  {
    hide Normal, Show, Nearest;
    ShowFolds(p);
    var n := |p.names|;
    assert p.names[..n] == p.names && Up(p, n) == p;
    if lists(Show(p)) != Listed([]) {
      NearestIs(lists, p, n, n);
    } else if n > 0 {
      DirOfCleaned(p);
      NearestBelow(lists, p);
      assert forall j :: 0 <= j < n ==> Up(Parent(p), j) == Up(p, j);
    } else {
      DirOfCleaned(p);
    }
  }

  lemma NextNearest<T>(lists: string -> Listing<T>, p: Path)
    requires p.names != [] && lists(Show(p)) == Listed([])
    ensures Nearest(lists, p, |p.names|) == Nearest(lists, p, |p.names| - 1)
  {
    assert Up(p, |p.names|) == p;
  }

  /** Of a cleaned path, what is found is found at the path itself or the nearest ancestor that
      has something, and the relative path is the names below it. */
  lemma CleanedWalk<T>(lists: string -> Listing<T>, p: Path, found: Listing<T>, relPath: string)
    requires Normal(p) && Answers(lists, Show(p), found, relPath)
    ensures
      var k := Nearest(lists, p, |p.names|);
      if k < 0 then found == Listed([]) && relPath == ""
      else
        && found == lists(Show(Up(p, k)))
        && relPath == if found.Listed? then Join('/', p.names[k..]) else ""
  {
    hide Normal, Show, Join, DirPath, Base, Rest, Nearest;
    AnswersFound(lists, Show(p), found, relPath);
    CleanedFound(lists, p);
    DirOfCleaned(p);
    var n := |p.names|;
    assert p.names[..n] == p.names && Up(p, n) == p;
    if lists(Show(p)) != Listed([]) {
      NearestIs(lists, p, n, n);
      assert p.names[n..] == [];
      JoinNothing();
    } else if n > 0 {
      NearestBelow(lists, p);
      var k := Nearest(lists, p, n);
      if k >= 0 {
        RestBelow(p, k);
      }
    }
  }

  lemma RestBelow(p: Path, k: nat)
    requires k < |p.names|
    ensures Rest(Parent(p), k, p.names[|p.names| - 1]) == Join('/', p.names[k..])
  {
    hide Join;
    var n := |p.names|;
    assert p.names[..n - 1][k..] + [p.names[n - 1]] == p.names[k..];
  }

  lemma NearestBelow<T>(lists: string -> Listing<T>, p: Path)
    requires p.names != [] && lists(Show(p)) == Listed([])
    ensures Nearest(lists, p, |p.names|) == Nearest(lists, Parent(p), |p.names| - 1)
  {
    hide Nearest, Show;
    NextNearest(lists, p);
    var n := |p.names|;
    assert p.names[..n - 1][..n - 1] == p.names[..n - 1];
    NearestSame(lists, p, Parent(p), n - 1);
  }

  /** No source is kept under this path unless it is cleaned, and then the walk finds the same
      for it as for the cleaned path. */
  ghost predicate Agree(lists: string -> Listing<int>, s: string) {
    (s != Clean(s) ==> lists(s) == Listed([])) ==> FoundIn(lists, s) == FoundIn(lists, Clean(s))
  }

  /** The walk finds the same for a path as for its cleaned form, whatever there is, exactly if
      the path is cleaned, or ends in a separator, or its last element is "." or a ".." that
      does nothing. */
  lemma SameFoundIff(s: string)
    requires s != ""
    ensures (forall lists :: Agree(lists, s)) <==>
      || s == Clean(s) || s[|s| - 1] == '/'
      || (!Adds(DirPath(s), Base(s)) && !Pops(DirPath(s), Base(s)))
  {
    hide *;
    var one := s == Clean(s) || s[|s| - 1] == '/' || (!Adds(DirPath(s), Base(s)) && !Pops(DirPath(s), Base(s)));
    if one {
      forall lists ensures Agree(lists, s) {
        SameFound(lists, s);
      }
    } else if Adds(DirPath(s), Base(s)) {
      var lists := FoundOnlyCleaned(s);
      assert !Agree(lists, s);
    } else {
      var lists := FoundOnlyGiven(s);
      assert !Agree(lists, s);
    }
  }

  lemma SameFound(lists: string -> Listing<int>, s: string)
    requires s != ""
    requires s == Clean(s) || s[|s| - 1] == '/' || (!Adds(DirPath(s), Base(s)) && !Pops(DirPath(s), Base(s)))
    ensures Agree(lists, s)
  {
    hide CleanPath, DirPath, Base, Adds, Pops, Normal, Show, Climbed;
    DirOf(s);
    CleanedFound(lists, CleanPath(s));
  }

  ghost function Only(t: string): string -> Listing<int> {
    p => if p == t then Listed([0]) else Listed([])
  }

  /** Snapshots of the cleaned path only are not found. */
  lemma FoundOnlyCleaned(s: string) returns (lists: string -> Listing<int>)
    requires s != "" && s != Clean(s) && s[|s| - 1] != '/' && Adds(DirPath(s), Base(s))
    ensures !Agree(lists, s)
  {
    hide CleanPath, DirPath, Base, Adds, Pops, Normal, Show, Climbed;
    lists := Only(Clean(s));
    var c, q := CleanPath(s), DirPath(s);
    DirOf(s);
    CleanedFound(lists, c);
    ClimbsTo(c, c);
    ClimbsTo(c, q);
    assert forall k :: 0 <= k <= |q.names| ==> |Up(q, k).names| == k;
    assert Up(c, |c.names|) == c;
  }

  /** Snapshots of the directory that the last ".." leaves are found. */
  lemma FoundOnlyGiven(s: string) returns (lists: string -> Listing<int>)
    requires s != "" && s != Clean(s) && s[|s| - 1] != '/' && Pops(DirPath(s), Base(s)) && !Adds(DirPath(s), Base(s))
    ensures !Agree(lists, s)
  {
    hide CleanPath, DirPath, Base, Adds, Normal, Show, Climbed;
    var c, q := CleanPath(s), DirPath(s);
    lists := Only(Show(q));
    DirOf(s);
    CleanedFound(lists, c);
    ClimbsTo(q, c);
    ClimbsTo(q, q);
    DirOfCleaned(q);
    assert forall k :: 0 <= k <= |c.names| ==> |Up(c, k).names| == k;
    assert Up(q, |q.names|) == q;
  }

  /** Where there are snapshots of one directory only, the walk finds them if it comes by. */
  lemma ClimbsTo(d: Path, q: Path)
    requires Normal(d) && Normal(q)
    ensures Climbed(Only(Show(d)), q) != Listed([]) <==> exists k :: 0 <= k <= |q.names| && Up(q, k) == d
  {
    hide Normal, Show;
    forall k | 0 <= k <= |q.names| ensures Show(Up(q, k)) == Show(d) <==> Up(q, k) == d {
      ParentNormal(q, k);
      if Show(Up(q, k)) == Show(d) {
        ShowInjective(Up(q, k), d);
      }
    }
  }

  // ---- paths on which the walk goes wrong ---------------------------------------------------------

  lemma ShowTwo(x: char, y: char)
    requires x != '.' && x != '/' && y != '.' && y != '/'
    ensures
      var p, q := Path(true, [[x], [y]]), Path(true, [[x]]);
      && Normal(p) && Normal(q) && Up(p, 2) == p && Up(p, 1) == q && Up(q, 1) == q
      && Show(p) == ['/', x, '/', y] && Show(q) == ['/', x]
      && CleanPath(['/', x, '/', y]) == p && CleanPath(['/', x]) == q
  {
    hide CleanPath, Join, Base, DirPath;
    var p, q := Path(true, [[x], [y]]), Path(true, [[x]]);
    assert p.names[..1] == q.names && p.names[..2] == p.names;
    JoinTwo([x], [y]);
    assert Show(p) == ['/', x, '/', y];
    DirOfCleaned(p);
    DirOfCleaned(q);
  }

  lemma JoinTwo(x: string, y: string)
    ensures Join('/', [x, y]) == x + "/" + y && Join('/', [x]) == x
  {
    assert [x, y][1..] == [y];
  }

  lemma SeparatorPath()
    ensures
      var p, s := Path(true, ["a", "b"]), "/a/b/";
      DirPath(s) == CleanPath(s) == p && Clean(s) == "/a/b" && Base(s) == "b"
  {
    hide CleanPath, DirPath, Base;
    ShowTwo('a', 'b');
    CleanTrailing("/a/b");
    assert "/a/b" + ['/'] == "/a/b/";
    CleanEnds("/a/b/");
    SeparatorBase();
  }

  lemma SeparatorBase()
    ensures Base("/a/b/") == "b"
  {
    hide Base, LastElement;
    assert "/a/b/"[..4] == "/a/b";
    BaseOf("/a/b/");
    BaseOf("/a/b");
    LastElementOf("/a/", "b");
    assert "/a/" + "b" == "/a/b" && "/a/b"[3..] == "b";
  }

  lemma SeparatorRest()
    ensures Rest(Path(true, ["a", "b"]), 1, "b") == "b/b" && Joined("/a", "b/b") == "/a/b/b"
  {
    hide CleanPath, Join, Folded;
    JoinTwo("b", "b");
    ShowTwo('a', 'b');
    assert ["a", "b"][1..] + ["b"] == ["b", "b"];
    CleanAfter("/a/b", "b");
    assert "/a/b" + ['/'] + "b" == "/a" + ['/'] + "b/b";
    JoinThree();
  }

  lemma JoinThree()
    ensures Folded(true, ["a", "b"], "b") == ["a", "b", "b"] && Show(Path(true, ["a", "b", "b"])) == "/a/b/b"
  {
    JoinTwo("b", "b");
    assert ["a", "b", "b"][1..] == ["b", "b"];
  }

  /** With snapshots of "/a" only, "/a/b/" is answered with the relative path "b/b". */
  method SeparatorMisleads<T>(snapshot: T) returns (found: Listing<T>, relPath: string)
    ensures found == Listed([snapshot]) && relPath == "b/b"
    ensures Joined("/a", relPath) == "/a/b/b" && Clean("/a/b/") == "/a/b"
  {
    hide CleanPath, DirPath, Base, Show, Rest, Normal, Nearest, Joined;
    var lists := (p: string) => if p == "/a" then Listed([snapshot]) else Listed([]);
    ShowTwo('a', 'b');
    SeparatorPath();
    SeparatorRest();
    NearestIs(lists, Path(true, ["a", "b"]), 2, 1);
    found, relPath := FindSnapshotsForSource(lists, "/a/b/");
  }

  lemma DotsPath()
    ensures
      var p, s := Path(true, ["a"]), "/a/b/../c";
      DirPath(s) == p && Base(s) == "c" && Clean(s) == "/a/c"
  {
    hide CleanPath, Base, Stripped, Folded, Show;
    DotsSplit();
    BaseOf("/a/b/../c");
    DotsDir();
    CleanSplit("/a/b/../c");
    ShowTwo('a', 'c');
    DotsStep();
  }

  lemma DotsSplit()
    ensures
      var s := "/a/b/../c";
      LastElement(s) == 8 && s[..8] == "/a/b/../" && s[8..] == "c"
  {
    hide LastElement;
    LastElementOf("/a/b/../", "c");
    assert "/a/b/../" + "c" == "/a/b/../c";
  }

  lemma DotsStep()
    ensures Folded(true, ["a"], "c") == ["a", "c"]
  {
  }

  lemma DotsDir()
    ensures CleanPath("/a/b/../") == Path(true, ["a"])
  {
    hide CleanPath, Base, Show;
    ShowTwo('a', 'b');
    CleanAfter("/a/b", "..");
    CleanTrailing("/a/b/..");
    assert "/a/b" + ['/'] + ".." == "/a/b/.." && "/a/b/.." + ['/'] == "/a/b/../";
    assert ["a", "b"][..1] == ["a"];
    assert Folded(true, ["a", "b"], "..") == ["a"];
  }

  lemma DotsRest()
    ensures Rest(Path(true, ["a"]), 1, "c") == "c"
  {
    assert ["a"][1..] + ["c"] == ["c"];
  }

  /** With snapshots of "/a" and of "/a/c", those of "/a" are found for "/a/b/../c". */
  method CleanedPathIsSkipped<T>(far: T, near: T) returns (found: Listing<T>, relPath: string)
    ensures found == Listed([far]) && relPath == "c"
    ensures Clean("/a/b/../c") == "/a/c"
  {
    hide CleanPath, DirPath, Base, Show, Rest, Normal, Nearest;
    var lists := (p: string) => if p == "/a" then Listed([far]) else if p == "/a/c" then Listed([near]) else Listed([]);
    ShowTwo('a', 'b');
    DotsPath();
    DotsRest();
    NearestIs(lists, Path(true, ["a"]), 1, 1);
    found, relPath := FindSnapshotsForSource(lists, "/a/b/../c");
  }
}

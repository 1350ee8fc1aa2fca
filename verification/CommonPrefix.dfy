/** FileCommonPrefix of pkg/iotools/file.go: paths are compared byte by byte and the result is
    cut at its last separator; that is the longest common sequence of path components. */
module CommonPrefix {
  // ---- common prefixes --------------------------------------------------------------------

  /** The longest common prefix. */
  function Shared<T(==)>(a: seq<T>, b: seq<T>): seq<T> {
    if a != [] && b != [] && a[0] == b[0] then [a[0]] + Shared(a[1..], b[1..]) else []
  }

  function SharedAll<T(==)>(lists: seq<seq<T>>): seq<T>
    requires lists != []
  {
    if |lists| == 1 then lists[0] else Shared(SharedAll(lists[..|lists| - 1]), lists[|lists| - 1])
  }

  /** It is a prefix of both, and every prefix of both is a prefix of it. */
  lemma {:induction false} SharedLongest<T>(a: seq<T>, b: seq<T>, d: seq<T>)
    ensures Shared(a, b) <= a && Shared(a, b) <= b
    ensures d <= a && d <= b ==> d <= Shared(a, b)
  {
    if a != [] && b != [] && a[0] == b[0] {
      if d != [] {
        SharedLongest(a[1..], b[1..], d[1..]);
        if d <= a && d <= b {
          assert d[1..] <= a[1..] && d[1..] <= b[1..];
          assert d == [d[0]] + d[1..];
        }
      } else {
        SharedLongest(a[1..], b[1..], []);
      }
      assert a == [a[0]] + a[1..] && b == [b[0]] + b[1..];
    }
  }

  /** Likewise for any number of lists. */
  lemma {:induction false} SharedAllLongest<T>(lists: seq<seq<T>>, d: seq<T>)
    requires lists != []
    ensures forall k :: 0 <= k < |lists| ==> SharedAll(lists) <= lists[k]
    ensures (forall k :: 0 <= k < |lists| ==> d <= lists[k]) ==> d <= SharedAll(lists)
  {
    if |lists| > 1 {
      var before := lists[..|lists| - 1];
      SharedAllLongest(before, d);
      SharedLongest(SharedAll(before), lists[|lists| - 1], d);
      hide Shared;
      forall k | 0 <= k < |lists| ensures SharedAll(lists) <= lists[k] {
        if k < |lists| - 1 {
          assert SharedAll(before) <= before[k];
        }
      }
    }
  }

  // ---- components -------------------------------------------------------------------------

  /** The stretches between separators. */
  function Components(sep: char, p: string): (r: seq<string>)
    ensures r != []
  {
    if p == "" then [""]
    else if p[0] == sep then [""] + Components(sep, p[1..])
    else
      var r := Components(sep, p[1..]);
      [[p[0]] + r[0]] + r[1..]
  }

  function Join(sep: char, cs: seq<string>): string {
    if cs == [] then ""
    else if |cs| == 1 then cs[0]
    else cs[0] + [sep] + Join(sep, cs[1..])
  }

  /** Every component followed by a separator. */
  function Flat(sep: char, cs: seq<string>): string {
    if cs == [] then "" else cs[0] + [sep] + Flat(sep, cs[1..])
  }

  ghost predicate Plain(sep: char, cs: seq<string>) {
    forall k :: 0 <= k < |cs| ==> sep !in cs[k]
  }

  lemma ComponentsFirst(sep: char, p: string)
    requires p != ""
    ensures var r := Components(sep, p[1..]);
            Components(sep, p) == if p[0] == sep then [""] + r else [[p[0]] + r[0]] + r[1..]
  {
  }

  lemma JoinEmptyFirst(sep: char, r: seq<string>)
    requires r != []
    ensures Join(sep, [""] + r) == [sep] + Join(sep, r)
  {
    assert ([""] + r)[1..] == r;
    assert "" + [sep] == [sep];
  }

  lemma JoinGrown(sep: char, x: char, r: seq<string>)
    requires r != []
    ensures Join(sep, [[x] + r[0]] + r[1..]) == [x] + Join(sep, r)
  {
    var grown := [[x] + r[0]] + r[1..];
    assert grown[0] == [x] + r[0] && grown[1..] == r[1..];
  }

  lemma PlainGrown(sep: char, x: char, r: seq<string>)
    requires r != [] && Plain(sep, r) && x != sep
    ensures Plain(sep, [[x] + r[0]] + r[1..])
  {
  }

  lemma PlainEmptyFirst(sep: char, r: seq<string>)
    requires Plain(sep, r)
    ensures Plain(sep, [""] + r)
  {
  }

  lemma NothingJoins(sep: char)
    ensures Components(sep, "") == [""] && Join(sep, [""]) == "" && Plain(sep, [""])
  {
  }

  /** Taking a path apart loses nothing. */
  lemma {:induction false} JoinComponents(sep: char, p: string)
    ensures Join(sep, Components(sep, p)) == p
    ensures Plain(sep, Components(sep, p))
  {
    hide Join, Components, Plain;
    if p == "" {
      NothingJoins(sep);
    } else {
      var x, r := p[0], Components(sep, p[1..]);
      JoinComponents(sep, p[1..]);
      ComponentsFirst(sep, p);
      assert p == [x] + p[1..];
      if x == sep {
        JoinEmptyFirst(sep, r);
        PlainEmptyFirst(sep, r);
      } else {
        JoinGrown(sep, x, r);
        PlainGrown(sep, x, r);
      }
    }
  }

  lemma {:induction false} FlatJoin(sep: char, cs: seq<string>)
    requires cs != []
    ensures Flat(sep, cs) == Join(sep, cs) + [sep]
  {
    if |cs| > 1 {
      FlatJoin(sep, cs[1..]);
    } else {
      assert cs[1..] == [];
    }
  }

  lemma FlatComponents(sep: char, p: string)
    ensures Flat(sep, Components(sep, p)) == p + [sep] && Plain(sep, Components(sep, p))
  {
    JoinComponents(sep, p);
    FlatJoin(sep, Components(sep, p));
  }

  // ---- bytes against components -------------------------------------------------------------

  lemma SharedCons<T>(x: T, a: seq<T>, b: seq<T>)
    ensures Shared([x] + a, [x] + b) == [x] + Shared(a, b)
  {
    assert ([x] + a)[1..] == a && ([x] + b)[1..] == b;
  }

  lemma {:induction false} SharedAfter<T>(s: seq<T>, a: seq<T>, b: seq<T>)
    ensures Shared(s + a, s + b) == s + Shared(a, b)
  {
    hide Shared;
    if s == [] {
      assert s + a == a && s + b == b;
    } else {
      SharedAfter(s[1..], a, b);
      SharedCons(s[0], s[1..] + a, s[1..] + b);
      assert s + a == [s[0]] + (s[1..] + a) && s + b == [s[0]] + (s[1..] + b);
      assert s == [s[0]] + s[1..];
    }
  }

  /** Different components share no separator. */
  lemma {:induction false} SharedApart(sep: char, k: string, v: string, a: string, b: string)
    requires sep !in k && sep !in v && k != v
    ensures sep !in Shared(k + [sep] + a, v + [sep] + b)
  {
    if k != "" && v != "" && k[0] == v[0] {
      assert k == [k[0]] + k[1..] && v == [v[0]] + v[1..];
      SharedApart(sep, k[1..], v[1..], a, b);
      SharedCons(k[0], k[1..] + [sep] + a, v[1..] + [sep] + b);
      assert k + [sep] + a == [k[0]] + (k[1..] + [sep] + a);
      assert v + [sep] + b == [k[0]] + (v[1..] + [sep] + b);
    }
  }

  lemma SharedPlain(sep: char, t: string, v: string)
    requires sep !in t
    ensures sep !in Shared(t, v)
  {
    SharedLongest(t, v, []);
  }

  /** One step of the loop: comparing bytes compares components, up to an unfinished one. */
  lemma {:induction false} SharedFlat(sep: char, ks: seq<string>, t: string, vs: seq<string>) returns (t': string)
    requires Plain(sep, ks) && Plain(sep, vs) && sep !in t
    ensures Shared(Flat(sep, ks) + t, Flat(sep, vs)) == Flat(sep, Shared(ks, vs)) + t'
    ensures sep !in t' && Plain(sep, Shared(ks, vs))
    decreases |ks|, 1
  {
    t' := "";
    if ks == [] {
      t' := Shared(t, Flat(sep, vs));
      SharedPlain(sep, t, Flat(sep, vs));
      assert Flat(sep, ks) + t == t;
    } else if vs != [] {
      t' := SharedFlatCons(sep, ks, t, vs);
    }
  }

  lemma {:induction false} SharedFlatCons(sep: char, ks: seq<string>, t: string, vs: seq<string>) returns (t': string)
    requires Plain(sep, ks) && Plain(sep, vs) && sep !in t && ks != [] && vs != []
    ensures Shared(Flat(sep, ks) + t, Flat(sep, vs)) == Flat(sep, Shared(ks, vs)) + t'
    ensures sep !in t' && Plain(sep, Shared(ks, vs))
    decreases |ks|, 0
  {
    hide Shared, Flat;
    var k, v, a, b := ks[0], vs[0], Flat(sep, ks[1..]) + t, Flat(sep, vs[1..]);
    FlatFirst(sep, ks);
    FlatFirst(sep, vs);
    assert Flat(sep, ks) + t == (k + [sep]) + a;
    assert Flat(sep, vs) == (v + [sep]) + b;
    if k == v {
      t' := SharedFlat(sep, ks[1..], t, vs[1..]);
      SharedAfter(k + [sep], a, b);
      SharedFlatHead(sep, k, ks[1..], vs[1..]);
      assert ks == [k] + ks[1..] && vs == [k] + vs[1..];
      assert Flat(sep, Shared(ks, vs)) + t' == (k + [sep]) + (Flat(sep, Shared(ks[1..], vs[1..])) + t');
    } else {
      t' := Shared((k + [sep]) + a, (v + [sep]) + b);
      SharedApart(sep, k, v, a, b);
      SharedDiffers(ks, vs);
      FlatNothing(sep);
      assert "" + t' == t';
    }
  }

  lemma FlatNothing(sep: char)
    ensures Flat(sep, []) == ""
  {
  }

  lemma FlatFirst(sep: char, cs: seq<string>)
    requires cs != []
    ensures Flat(sep, cs) == cs[0] + [sep] + Flat(sep, cs[1..])
  {
  }

  lemma SharedDiffers<T>(a: seq<T>, b: seq<T>)
    requires a != [] && b != [] && a[0] != b[0]
    ensures Shared(a, b) == []
  {
  }

  lemma SharedFlatHead(sep: char, k: string, ks: seq<string>, vs: seq<string>)
    ensures Shared([k] + ks, [k] + vs) == [k] + Shared(ks, vs)
    ensures Flat(sep, Shared([k] + ks, [k] + vs)) == k + [sep] + Flat(sep, Shared(ks, vs))
  {
    hide Shared, Flat;
    SharedCons(k, ks, vs);
    FlatCons(sep, k, Shared(ks, vs));
  }

  lemma FlatCons(sep: char, c: string, cs: seq<string>)
    ensures Flat(sep, [c] + cs) == c + [sep] + Flat(sep, cs)
  {
    assert ([c] + cs)[1..] == cs;
  }

  function ComponentLists(sep: char, ps: seq<string>): (r: seq<seq<string>>)
    ensures |r| == |ps| && forall k :: 0 <= k < |r| ==> r[k] == Components(sep, ps[k])
  {
    seq(|ps|, k requires 0 <= k < |ps| => Components(sep, ps[k]))
  }

  function Terminated(sep: char, ps: seq<string>): (r: seq<string>)
    ensures |r| == |ps| && forall k :: 0 <= k < |r| ==> r[k] == ps[k] + [sep]
  {
    seq(|ps|, k requires 0 <= k < |ps| => ps[k] + [sep])
  }

  /** Comparing the bytes of any number of paths compares their components. */
  lemma {:induction false} BytesAreComponents(sep: char, ps: seq<string>) returns (t: string)
    requires ps != []
    ensures SharedAll(Terminated(sep, ps)) == Flat(sep, SharedAll(ComponentLists(sep, ps))) + t
    ensures sep !in t && Plain(sep, SharedAll(ComponentLists(sep, ps)))
  {
    hide Flat, Components, Shared, Plain;
    var n := |ps| - 1;
    FlatComponents(sep, ps[n]);
    if n == 0 {
      t := "";
    } else {
      assert Terminated(sep, ps)[..n] == Terminated(sep, ps[..n]);
      assert ComponentLists(sep, ps)[..n] == ComponentLists(sep, ps[..n]);
      t := BytesAreComponents(sep, ps[..n]);
      t := SharedFlat(sep, SharedAll(ComponentLists(sep, ps[..n])), t, Components(sep, ps[n]));
    }
  }

  // ---- what the result is -------------------------------------------------------------------

  /** The components all paths begin with. */
  function Common(sep: char, ps: seq<string>): seq<string>
    requires ps != []
  {
    SharedAll(ComponentLists(sep, ps))
  }

  function CommonDirectory(sep: char, ps: seq<string>): string
    requires ps != []
  {
    if Common(sep, ps) != [] then Join(sep, Common(sep, ps)) else SharedAll(Terminated(sep, ps))
  }

  /** s without its last separator and what follows; all of s if it has none. */
  ghost predicate CutAtLast(sep: char, s: string, r: string) {
    if sep in s then exists n :: 0 <= n < |s| && s[n] == sep && sep !in s[n + 1..] && r == s[..n]
    else r == s
  }

  lemma LastUnique(sep: char, s: string, m: nat, n: nat)
    requires m < |s| && s[m] == sep && sep !in s[m + 1..]
    requires n < |s| && s[n] == sep && sep !in s[n + 1..]
    ensures m == n
  {
    assert forall j :: m < j < |s| ==> s[j] == s[m + 1..][j - m - 1];
    assert forall j :: n < j < |s| ==> s[j] == s[n + 1..][j - n - 1];
  }

  lemma CutFlat(sep: char, ks: seq<string>, t: string, r: string)
    requires sep !in t && CutAtLast(sep, Flat(sep, ks) + t, r)
    ensures r == if ks != [] then Join(sep, ks) else t
  {
    var s := Flat(sep, ks) + t;
    if ks != [] {
      FlatJoin(sep, ks);
      var m := |Join(sep, ks)|;
      assert s == Join(sep, ks) + [sep] + t;
      assert s[m] == sep;
      var n :| 0 <= n < |s| && s[n] == sep && sep !in s[n + 1..] && r == s[..n];
      assert s[m + 1..] == t;
      hide Flat, Join;
      LastUnique(sep, s, m, n);
    } else {
      assert s == t;
    }
  }

  lemma {:induction false} SharedUpTo<T>(a: seq<T>, b: seq<T>, n: nat)
    requires n <= |a| && n <= |b| && a[..n] == b[..n]
    requires n < |a| && n < |b| ==> a[n] != b[n]
    ensures Shared(a, b) == a[..n]
  {
    assert a == a[..n] + a[n..] && b == a[..n] + b[n..];
    SharedAfter(a[..n], a[n..], b[n..]);
    assert Shared(a[n..], b[n..]) == [];
  }

  /** The inner loop: truncate at the first byte that differs. */
  method Truncate(whole: string, v: string) returns (c: string)
    ensures c == Shared(whole, v)
  {
    c := whole;
    if |v| < |c| {
      c := c[..|v|];
    }
    for i := 0 to |c|
      invariant |c| <= |v| && |c| <= |whole| && c == whole[..|c|]
      invariant |c| < |whole| ==> |c| == |v|
      invariant c[..i] == v[..i]
    {
      if v[i] != c[i] {
        SharedUpTo(whole, v, i);
        c := c[..i];
        return;
      }
    }
    SharedUpTo(whole, v, |c|);
  }

  /** The last loop: back from the end to the first separator. */
  method Cut(sep: char, s: string) returns (c: string)
    ensures CutAtLast(sep, s, c)
  {
    c := s;
    for i := |s| downto 0
      invariant c == s && sep !in s[i..]
    {
      if c[i] == sep {
        c := c[..i];
        return;
      }
    }
    assert s[0..] == s;
  }

  /** The lexical cleaning of paths is a library's; whatever it does to each, the result is the
      directory all the cleaned paths share. */
  method FileCommonPrefix(sep: char, clean: string -> string, paths: seq<string>) returns (r: string)
    ensures paths == [] ==> r == ""
    ensures |paths| == 1 ==> r == clean(paths[0])
    ensures |paths| >= 2 ==> r == CommonDirectory(sep, Cleaned(clean, paths))
  {
    if |paths| == 0 {
      return "";
    }
    if |paths| == 1 {
      return clean(paths[0]);
    }
    ghost var ps := Cleaned(clean, paths);
    var c := clean(paths[0]);
    c := c + [sep];
    for j := 1 to |paths|
      invariant c == SharedAll(Terminated(sep, ps)[..j])
    {
      var v := clean(paths[j]) + [sep];
      c := Truncate(c, v);
      assert Terminated(sep, ps)[..j + 1][..j] == Terminated(sep, ps)[..j];
    }
    assert Terminated(sep, ps)[..|ps|] == Terminated(sep, ps);
    r := Cut(sep, c);
    ghost var t := BytesAreComponents(sep, ps);
    CutFlat(sep, Common(sep, ps), t, r);
  }

  function Cleaned(clean: string -> string, paths: seq<string>): (r: seq<string>)
    ensures |r| == |paths| && forall k :: 0 <= k < |r| ==> r[k] == clean(paths[k])
  {
    seq(|paths|, k requires 0 <= k < |paths| => clean(paths[k]))
  }

  // ---- what the result means ----------------------------------------------------------------

  /** d is an ancestor of p, or p itself. */
  ghost predicate Above(sep: char, d: string, p: string) {
    Components(sep, d) <= Components(sep, p)
  }

  lemma {:induction false} ComponentsJoin(sep: char, cs: seq<string>)
    requires cs != [] && Plain(sep, cs)
    ensures Components(sep, Join(sep, cs)) == cs
  {
    if |cs| == 1 {
      OneComponent(sep, cs[0]);
    } else {
      ComponentsJoin(sep, cs[1..]);
      ComponentsAppend(sep, cs[0], Join(sep, cs[1..]));
      assert Join(sep, cs) == cs[0] + [sep] + Join(sep, cs[1..]);
      assert cs == [cs[0]] + cs[1..];
    }
  }

  lemma {:induction false} OneComponent(sep: char, c: string)
    requires sep !in c
    ensures Components(sep, c) == [c]
  {
    if c != "" {
      OneComponent(sep, c[1..]);
      assert c == [c[0]] + c[1..];
    }
  }

  lemma {:induction false} ComponentsAppend(sep: char, c: string, p: string)
    requires sep !in c
    ensures Components(sep, c + [sep] + p) == [c] + Components(sep, p)
  {
    if c == "" {
      assert (c + [sep] + p)[1..] == p;
    } else {
      ComponentsAppend(sep, c[1..], p);
      assert (c + [sep] + p)[1..] == c[1..] + [sep] + p;
      assert c == [c[0]] + c[1..];
    }
  }

  /** When the paths share a component, the result is above them all and everything above
      them all is above it: it is their lowest common directory. */
  lemma LowestCommonDirectory(sep: char, ps: seq<string>, d: string)
    requires ps != [] && Common(sep, ps) != []
    ensures Components(sep, CommonDirectory(sep, ps)) == Common(sep, ps)
    ensures forall k :: 0 <= k < |ps| ==> Above(sep, CommonDirectory(sep, ps), ps[k])
    ensures (forall k :: 0 <= k < |ps| ==> Above(sep, d, ps[k])) ==> Above(sep, d, CommonDirectory(sep, ps))
  {
    var t := BytesAreComponents(sep, ps);
    ComponentsJoin(sep, Common(sep, ps));
    SharedAllLongest(ComponentLists(sep, ps), Components(sep, d));
    hide Components, Join, SharedAll, Plain;
    forall k | 0 <= k < |ps| ensures Above(sep, CommonDirectory(sep, ps), ps[k]) {
      assert Common(sep, ps) <= ComponentLists(sep, ps)[k];
    }
    if forall k :: 0 <= k < |ps| ==> Above(sep, d, ps[k]) {
      assert forall k :: 0 <= k < |ps| ==> Components(sep, d) <= ComponentLists(sep, ps)[k];
    }
  }

  /** Absolute paths share at least the root. */
  lemma AbsoluteShare(sep: char, ps: seq<string>)
    requires ps != [] && forall k :: 0 <= k < |ps| ==> ps[k] != "" && ps[k][0] == sep
    ensures Common(sep, ps) != [] && Common(sep, ps)[0] == ""
  {
    var lists := ComponentLists(sep, ps);
    forall k | 0 <= k < |lists| ensures [""] <= lists[k] {
      assert Components(sep, ps[k])[0] == "";
    }
    SharedAllLongest(lists, [""]);
  }

  /** Paths that share no component: the result is whatever first bytes they share, a piece of
      a component, and no directory of theirs. */
  lemma NothingShared(sep: char, ps: seq<string>, r: string)
    requires ps != [] && Common(sep, ps) == [] && r == CommonDirectory(sep, ps)
    ensures sep !in r
    ensures !(forall k :: 0 <= k < |ps| ==> Above(sep, r, ps[k]))
  {
    var t := BytesAreComponents(sep, ps);
    assert r == t;
    OneComponent(sep, r);
    SharedAllLongest(ComponentLists(sep, ps), [r]);
    var lists := ComponentLists(sep, ps);
    assert forall k :: 0 <= k < |ps| ==> (Above(sep, r, ps[k]) <==> [r] <= lists[k]);
  }

  /** The result is a directory of all the paths exactly when they share a component. */
  lemma DirectoryIff(sep: char, ps: seq<string>)
    requires ps != []
    ensures (forall k :: 0 <= k < |ps| ==> Above(sep, CommonDirectory(sep, ps), ps[k])) <==> Common(sep, ps) != []
  {
    if Common(sep, ps) != [] {
      LowestCommonDirectory(sep, ps, "");
    } else {
      NothingShared(sep, ps, CommonDirectory(sep, ps));
    }
  }

  /** Two relative paths for which it is not. */
  lemma RelativeFails()
    ensures CommonDirectory('/', ["ab", "ac"]) == "a"
    ensures !Above('/', "a", "ab")
  {
    var ps := ["ab", "ac"];
    OneComponent('/', "ab");
    OneComponent('/', "ac");
    OneComponent('/', "a");
    SharedUpTo(["ab"], ["ac"], 0);
    SharedUpTo("ab/", "ac/", 1);
    assert ComponentLists('/', ps) == [["ab"], ["ac"]];
    assert "ab" + ['/'] == "ab/" && "ac" + ['/'] == "ac/";
    assert Terminated('/', ps) == ["ab/", "ac/"];
    assert [["ab"], ["ac"]][..1] == [["ab"]];
    assert ["ab/", "ac/"][..1] == ["ab/"];
  }
}

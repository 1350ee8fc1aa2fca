/** sort.Sort and sort.SliceStable by index, as the standard library promises them: an ordered
    rearrangement that keeps the order of equal indices. */
module Sorting {
  datatype Entry<+T> = Entry(idx: nat, value: T)

  function Insert<T>(x: Entry<T>, s: seq<Entry<T>>): seq<Entry<T>> {
    if s == [] then [x]
    else if x.idx <= s[0].idx then [x] + s
    else [s[0]] + Insert(x, s[1..])
  }

  function Sort<T>(s: seq<Entry<T>>): seq<Entry<T>> {
    if s == [] then [] else Insert(s[0], Sort(s[1..]))
  }

  ghost predicate Ordered<T>(s: seq<Entry<T>>) {
    forall i, j :: 0 <= i < j < |s| ==> s[i].idx <= s[j].idx
  }

  /** No two different entries share an index. */
  ghost predicate Distinct<T>(s: seq<Entry<T>>) {
    forall i, j :: 0 <= i < j < |s| ==> s[i].idx != s[j].idx
  }

  lemma {:induction false} InsertKeeps<T>(x: Entry<T>, s: seq<Entry<T>>)
    ensures multiset(Insert(x, s)) == multiset(s) + multiset{x}
  {
    if s != [] {
      assert s == [s[0]] + s[1..];
      if x.idx > s[0].idx {
        InsertKeeps(x, s[1..]);
      }
    }
  }

  lemma {:induction false} InsertOrders<T>(x: Entry<T>, s: seq<Entry<T>>)
    requires Ordered(s)
    ensures Ordered(Insert(x, s))
  {
    if s != [] && x.idx > s[0].idx {
      InsertOrders(x, s[1..]);
      var r := Insert(x, s[1..]);
      InsertKeeps(x, s[1..]);
      forall i | 0 <= i < |r| ensures s[0].idx <= r[i].idx {
        assert r[i] in multiset(r);
      }
    }
  }

  lemma {:induction false} SortKeeps<T>(s: seq<Entry<T>>)
    ensures multiset(Sort(s)) == multiset(s)
  {
    hide Insert;
    if s != [] {
      SortKeeps(s[1..]);
      InsertKeeps(s[0], Sort(s[1..]));
      assert s == [s[0]] + s[1..];
    }
  }

  lemma {:induction false} SortOrders<T>(s: seq<Entry<T>>)
    ensures Ordered(Sort(s))
  {
    hide Insert;
    if s != [] {
      SortOrders(s[1..]);
      InsertOrders(s[0], Sort(s[1..]));
    }
  }

  lemma SortSpec<T>(s: seq<Entry<T>>)
    ensures Ordered(Sort(s)) && multiset(Sort(s)) == multiset(s) && |Sort(s)| == |s|
  {
    hide Sort, Ordered;
    SortOrders(s);
    SortKeeps(s);
    assert |Sort(s)| == |multiset(Sort(s))| == |multiset(s)| == |s|;
  }

  function WithIndex<T>(s: seq<Entry<T>>, k: nat): seq<Entry<T>> {
    if s == [] then [] else (if s[0].idx == k then [s[0]] else []) + WithIndex(s[1..], k)
  }

  lemma Front<T>(e: Entry<T>, s: seq<Entry<T>>, k: nat)
    ensures WithIndex([e] + s, k) == (if e.idx == k then [e] else []) + WithIndex(s, k)
  {
    assert ([e] + s)[1..] == s;
  }

  lemma {:induction false} InsertStable<T>(x: Entry<T>, s: seq<Entry<T>>, k: nat)
    ensures WithIndex(Insert(x, s), k) == (if x.idx == k then [x] else []) + WithIndex(s, k)
  {
    hide WithIndex;
    if s == [] || x.idx <= s[0].idx {
      Front(x, s, k);
      assert Insert(x, s) == [x] + s;
    } else {
      InsertStable(x, s[1..], k);
      Front(s[0], Insert(x, s[1..]), k);
      Front(s[0], s[1..], k);
      assert s == [s[0]] + s[1..];
    }
  }

  /** Entries with the same index stay in the order they had. */
  lemma {:induction false} SortStable<T>(s: seq<Entry<T>>, k: nat)
    ensures WithIndex(Sort(s), k) == WithIndex(s, k)
  {
    if s != [] {
      SortStable(s[1..], k);
      InsertStable(s[0], Sort(s[1..]), k);
    }
  }

  lemma {:induction false} DistinctCount<T>(s: seq<Entry<T>>, x: Entry<T>)
    requires Distinct(s)
    ensures multiset(s)[x] <= 1
  {
    if s != [] {
      DistinctCount(s[1..], x);
      assert s == [s[0]] + s[1..];
      assert forall j :: 0 <= j < |s[1..]| ==> s[1..][j] == s[j + 1];
    }
  }

  /** A rearrangement of distinct entries is distinct. */
  lemma DistinctPermuted<T>(a: seq<Entry<T>>, b: seq<Entry<T>>)
    requires Distinct(a) && multiset(a) == multiset(b)
    ensures Distinct(b)
  {
    forall i, j | 0 <= i < j < |b| ensures b[i].idx != b[j].idx {
      assert b[i] in multiset(a) && b[j] in multiset(a);
      DistinctCount(a, b[i]);
      assert b == b[..i] + [b[i]] + b[i + 1..j] + [b[j]] + b[j + 1..];
      assert multiset(b)[b[i]] >= if b[i] == b[j] then 2 else 1;
    }
  }

  lemma SameHead<T>(a: seq<Entry<T>>, b: seq<Entry<T>>)
    requires Ordered(a) && Ordered(b) && Distinct(a) && multiset(a) == multiset(b) && a != []
    ensures b != [] && a[0] == b[0]
  {
    assert a[0] in multiset(b);
    assert b[0] in multiset(a);
    var i :| 0 <= i < |a| && a[i] == b[0];
    var j :| 0 <= j < |b| && b[j] == a[0];
    assert a[0].idx <= a[i].idx && b[0].idx <= b[j].idx;
  }

  lemma Tail<T>(a: seq<Entry<T>>)
    requires a != []
    ensures multiset(a) == multiset(a[1..]) + multiset{a[0]}
    ensures Ordered(a) ==> Ordered(a[1..])
    ensures Distinct(a) ==> Distinct(a[1..])
  {
    assert a == [a[0]] + a[1..];
  }

  /** There is only one order for distinct entries. */
  lemma {:induction false} OrderUnique<T>(a: seq<Entry<T>>, b: seq<Entry<T>>)
    requires Ordered(a) && Ordered(b) && Distinct(a) && multiset(a) == multiset(b)
    ensures a == b
  {
    if a == [] {
      assert |b| == |multiset(b)| == |multiset(a)| == 0;
    } else {
      SameHead(a, b);
      Tail(a);
      Tail(b);
      hide Ordered, Distinct;
      CancelOne(multiset(a[1..]), multiset(b[1..]), a[0]);
      OrderUnique(a[1..], b[1..]);
      assert a == [a[0]] + a[1..] && b == [b[0]] + b[1..];
    }
  }

  /** Sorting forgets the order distinct entries arrived in. */
  lemma SortOfPermutation<T>(a: seq<Entry<T>>, b: seq<Entry<T>>)
    requires Distinct(a) && multiset(a) == multiset(b)
    ensures Sort(a) == Sort(b) && |a| == |b|
  {
    SortSpec(a);
    SortSpec(b);
    DistinctPermuted(a, Sort(a));
    OrderUnique(Sort(a), Sort(b));
  }

  /** What is already ordered and distinct stays. */
  lemma SortOfOrdered<T>(a: seq<Entry<T>>, b: seq<Entry<T>>)
    requires Ordered(a) && Distinct(a) && multiset(a) == multiset(b)
    ensures Sort(b) == a
  {
    SortSpec(b);
    OrderUnique(a, Sort(b));
  }

  predicate Within(places: seq<nat>, n: nat) {
    forall i :: 0 <= i < |places| ==> places[i] < n
  }

  /** The elements of all at the given places. */
  function Pick<T>(all: seq<T>, places: seq<nat>): (r: seq<T>)
    requires Within(places, |all|)
    ensures |r| == |places| && forall i :: 0 <= i < |r| ==> r[i] == all[places[i]]
  {
    seq(|places|, i requires 0 <= i < |places| => all[places[i]])
  }

  function Removed<T>(s: seq<T>, i: nat): (r: seq<T>)
    requires i < |s|
    ensures |r| == |s| - 1
  {
    s[..i] + s[i + 1..]
  }

  lemma RemoveOne<T>(s: seq<T>, i: nat)
    requires i < |s|
    ensures multiset(s) == multiset(Removed(s, i)) + multiset{s[i]}
  {
    assert s == s[..i] + [s[i]] + s[i + 1..];
  }

  lemma CancelOne<T>(a: multiset<T>, b: multiset<T>, x: T)
    requires a + multiset{x} == b + multiset{x}
    ensures a == b
  {
    assert a == (a + multiset{x}) - multiset{x};
    assert b == (b + multiset{x}) - multiset{x};
  }

  lemma PickRemoved<T>(all: seq<T>, t: seq<nat>, i: nat)
    requires i < |t| && Within(t, |all|)
    ensures Within(Removed(t, i), |all|)
    ensures multiset(Pick(all, t)) == multiset(Pick(all, Removed(t, i))) + multiset{all[t[i]]}
  {
    var r := Pick(all, t);
    RemoveOne(r, i);
    assert Removed(r, i) == Pick(all, Removed(t, i));
  }

  /** Picking at rearranged places gives rearranged elements. */
  lemma {:induction false} PickPermuted<T>(all: seq<T>, s: seq<nat>, t: seq<nat>)
    requires multiset(s) == multiset(t) && Within(s, |all|) && Within(t, |all|)
    ensures multiset(Pick(all, s)) == multiset(Pick(all, t))
  {
    assert |s| == |multiset(s)| == |multiset(t)| == |t|;
    if s != [] {
      assert s[0] in multiset(t);
      var i :| 0 <= i < |t| && t[i] == s[0];
      PickRemoved(all, t, i);
      PickRemoved(all, s, 0);
      RemoveOne(t, i);
      RemoveOne(s, 0);
      hide Removed, Within;
      CancelOne(multiset(Removed(s, 0)), multiset(Removed(t, i)), s[0]);
      PickPermuted(all, Removed(s, 0), Removed(t, i));
    } else {
      assert t == [];
    }
  }

  lemma PermutedWithin(s: seq<nat>, t: seq<nat>, n: nat)
    requires multiset(s) == multiset(t) && Within(t, n)
    ensures Within(s, n) && |s| == |t|
  {
    assert |s| == |multiset(s)| == |multiset(t)| == |t|;
    forall i | 0 <= i < |s| ensures s[i] < n {
      assert s[i] in multiset(t);
    }
  }
}

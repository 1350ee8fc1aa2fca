/** The batching of download sizes in internal/download/cachemgr.go.

    serve adds up sizes by path key; a recorder leaves the cache when it passes the limit, at
    a timeout, or when the manager drains, and goroutines then publish it.  Timeouts may fire
    at any moment.  Sizes are unbounded integers here. */
module DownloadCache {
  import opened Basics

  type Key = string

  datatype Record = Record(key: Key, size: int)

  datatype Phase = Serving | Draining | Done

  /** queued: recorders handed to a goroutine that has not yet added them to the statistics.
      added: added to the statistics, but the billing handler has not returned.  billed: what
      the handler was given.  received: history, the sizes serve took from its channel. */
  datatype State = State(
    phase: Phase, cache: map<Key, int>, queued: seq<Record>, added: seq<Record>,
    stat: map<Key, int>, billed: seq<Record>, wg: int, received: map<Key, int>)

  const Init := State(Serving, map[], [], [], map[], [], 0, map[])

  function Get(m: map<Key, int>, k: Key): int {
    if k in m then m[k] else 0
  }

  function Plus(m: map<Key, int>, k: Key, n: int): map<Key, int> {
    m[k := Get(m, k) + n]
  }

  /** The cached recorders in the order a range over the map happens to visit them. */
  function Batch(cache: map<Key, int>, order: seq<Key>): seq<Record>
    requires forall k :: k in order ==> k in cache
  {
    if order == [] then [] else [Record(order[0], cache[order[0]])] + Batch(cache, order[1..])
  }

  predicate Visits(order: seq<Key>, cache: map<Key, int>) {
    && (forall i, j :: 0 <= i < j < |order| ==> order[i] != order[j])
    && (forall k :: k in order ==> k in cache)
    && (forall k :: k in cache ==> k in order)
  }

  datatype Event =
    | Receive(key: Key, size: int)
    | Timeout(order: seq<Key>)
    | Drain(order: seq<Key>)
    | AddStat(i: nat)      // publishOne adds a recorder to the statistics
    | Bill(i: nat)         // publishOne calls the handler; its deferred Done runs
    | Finish               // the wait group is empty: serve signals doneC

  /** Record drops sizes that are not positive before serve sees them. */
  predicate Enabled(s: State, e: Event) {
    match e
    case Receive(key, size) => s.phase.Serving? && size > 0
    case Timeout(order) => s.phase.Serving? && Visits(order, s.cache)
    case Drain(order) => s.phase.Serving? && Visits(order, s.cache)
    case AddStat(i) => i < |s.queued|
    case Bill(i) => i < |s.added|
    case Finish => s.phase.Draining? && s.wg == 0
  }

  function Without<T>(s: seq<T>, i: nat): seq<T>
    requires i < |s|
  {
    s[..i] + s[i + 1..]
  }

  function Publish(s: State, order: seq<Key>): State
    requires Visits(order, s.cache)
  {
    s.(cache := map[], queued := s.queued + Batch(s.cache, order), wg := s.wg + |s.cache|)
  }

  function Apply(limit: int, s: State, e: Event): State
    requires Enabled(s, e)
  {
    match e
    case Receive(key, size) =>
      var cum := Get(s.cache, key) + size;
      var t := s.(received := Plus(s.received, key, size));
      if cum > limit then
        t.(cache := s.cache - {key}, queued := s.queued + [Record(key, cum)], wg := s.wg + 1)
      else
        t.(cache := s.cache[key := cum])
    case Timeout(order) => Publish(s, order)
    case Drain(order) => Publish(s, order).(phase := Draining)
    case AddStat(i) =>
      var r := s.queued[i];
      s.(queued := Without(s.queued, i), added := s.added + [r], stat := Plus(s.stat, r.key, r.size))
    case Bill(i) =>
      s.(added := Without(s.added, i), billed := s.billed + [s.added[i]], wg := s.wg - 1)
    case Finish => s.(phase := Done)
  }

  // ---- conservation -------------------------------------------------------------------------

  function Sum(rs: seq<Record>, k: Key): int {
    if rs == [] then 0 else (if rs[0].key == k then rs[0].size else 0) + Sum(rs[1..], k)
  }

  lemma {:induction false} SumConcat(a: seq<Record>, b: seq<Record>, k: Key)
    ensures Sum(a + b, k) == Sum(a, k) + Sum(b, k)
  {
    if a == [] {
      assert a + b == b;
    } else {
      SumConcat(a[1..], b, k);
      assert (a + b)[1..] == a[1..] + b;
    }
  }

  lemma SumWithout(rs: seq<Record>, i: nat, k: Key)
    requires i < |rs|
    ensures Sum(rs, k) == Sum(Without(rs, i), k) + Sum([rs[i]], k)
  {
    assert rs == rs[..i] + ([rs[i]] + rs[i + 1..]);
    SumConcat(rs[..i], [rs[i]] + rs[i + 1..], k);
    SumConcat([rs[i]], rs[i + 1..], k);
    SumConcat(rs[..i], rs[i + 1..], k);
  }

  lemma {:induction false} BatchSum(cache: map<Key, int>, order: seq<Key>, k: Key)
    requires forall x :: x in order ==> x in cache
    requires forall i, j :: 0 <= i < j < |order| ==> order[i] != order[j]
    ensures Sum(Batch(cache, order), k) == if k in order then cache[k] else 0
    ensures |Batch(cache, order)| == |order|
  {
    if order != [] {
      BatchSum(cache, order[1..], k);
      assert order == [order[0]] + order[1..];
    }
  }

  lemma {:induction false} VisitsCount(order: seq<Key>, keys: set<Key>)
    requires forall i, j :: 0 <= i < j < |order| ==> order[i] != order[j]
    requires forall k :: k in order <==> k in keys
    ensures |order| == |keys|
  {
    if order != [] {
      var rest := order[1..];
      assert order == [order[0]] + rest;
      VisitsCount(rest, keys - {order[0]});
    }
  }

  /** Every byte serve has received for k is in the cache, on its way, or in the statistics;
      and the statistics are what has been or is being billed. */
  ghost predicate Balanced(s: State, k: Key) {
    && Get(s.received, k) == Get(s.cache, k) + Sum(s.queued, k) + Get(s.stat, k)
    && Get(s.stat, k) == Sum(s.added, k) + Sum(s.billed, k)
  }

  ghost predicate Conserved(s: State) {
    forall k: Key :: Balanced(s, k)
  }

  ghost predicate Inv(limit: int, s: State) {
    && Conserved(s)
    && s.wg == |s.queued| + |s.added|
    && (forall k :: k in s.cache ==> s.cache[k] <= limit)
    && (!s.phase.Serving? ==> s.cache == map[])
    && (s.phase.Done? ==> s.queued == [] && s.added == [])
  }

  lemma SumOne(r: Record, k: Key)
    ensures Sum([r], k) == if r.key == k then r.size else 0
  {
  }

  lemma ReceiveBalanced(limit: int, s: State, e: Event, k: Key)
    requires Balanced(s, k) && Enabled(s, e) && e.Receive?
    ensures Balanced(Apply(limit, s, e), k)
  {
    hide Sum, Visits;
    var r := Record(e.key, Get(s.cache, e.key) + e.size);
    SumConcat(s.queued, [r], k);
    SumOne(r, k);
    var t := Apply(limit, s, e);
    assert Get(t.received, k) == Get(s.received, k) + if e.key == k then e.size else 0;
    if r.size > limit {
      assert Get(t.cache, k) == if e.key == k then 0 else Get(s.cache, k);
    } else {
      assert Get(t.cache, k) == if e.key == k then r.size else Get(s.cache, k);
    }
  }

  lemma PublishBalanced(s: State, order: seq<Key>, k: Key)
    requires Balanced(s, k) && Visits(order, s.cache)
    ensures Balanced(Publish(s, order), k)
  {
    SumConcat(s.queued, Batch(s.cache, order), k);
    BatchSum(s.cache, order, k);
  }

  lemma AddStatBalanced(limit: int, s: State, i: nat, k: Key)
    requires Balanced(s, k) && Enabled(s, AddStat(i))
    ensures Balanced(Apply(limit, s, AddStat(i)), k)
  {
    SumWithout(s.queued, i, k);
    SumConcat(s.added, [s.queued[i]], k);
    assert Sum([s.queued[i]], k) == if s.queued[i].key == k then s.queued[i].size else 0;
  }

  lemma BillBalanced(limit: int, s: State, i: nat, k: Key)
    requires Balanced(s, k) && Enabled(s, Bill(i))
    ensures Balanced(Apply(limit, s, Bill(i)), k)
  {
    SumWithout(s.added, i, k);
    SumConcat(s.billed, [s.added[i]], k);
  }

  lemma BalancedStep(limit: int, s: State, e: Event, k: Key)
    requires Balanced(s, k) && Enabled(s, e)
    ensures Balanced(Apply(limit, s, e), k)
  {
    match e
    case Receive(_, _) => ReceiveBalanced(limit, s, e, k);
    case Timeout(order) => PublishBalanced(s, order, k);
    case Drain(order) => DrainBalanced(limit, s, order, k);
    case AddStat(i) => AddStatBalanced(limit, s, i, k);
    case Bill(i) => BillBalanced(limit, s, i, k);
    case Finish => FinishBalanced(limit, s, k);
  }

  lemma DrainBalanced(limit: int, s: State, order: seq<Key>, k: Key)
    requires Balanced(s, k) && Enabled(s, Drain(order))
    ensures Balanced(Apply(limit, s, Drain(order)), k)
  {
    hide Sum, Batch, Visits;
    PublishBalanced(s, order, k);
  }

  lemma FinishBalanced(limit: int, s: State, k: Key)
    requires Balanced(s, k) && Enabled(s, Finish)
    ensures Balanced(Apply(limit, s, Finish), k)
  {
    hide Sum, Get;
  }

  lemma ConservedStep(limit: int, s: State, e: Event)
    requires Conserved(s) && Enabled(s, e)
    ensures Conserved(Apply(limit, s, e))
  {
    hide Enabled, Apply, Balanced;
    forall k: Key ensures Balanced(Apply(limit, s, e), k) {
      BalancedStep(limit, s, e, k);
    }
  }

  lemma PublishCounts(s: State, order: seq<Key>)
    requires Visits(order, s.cache)
    ensures |Publish(s, order).queued| == |s.queued| + |s.cache|
  {
    VisitsCount(order, s.cache.Keys);
    BatchSum(s.cache, order, "");
  }

  lemma StepKeepsInv(limit: int, s: State, e: Event)
    requires Inv(limit, s) && Enabled(s, e)
    ensures Inv(limit, Apply(limit, s, e))
  {
    ConservedStep(limit, s, e);
    hide Conserved, Batch, Sum;
    match e
    case Receive(_, _) =>
    case Timeout(order) => PublishCounts(s, order);
    case Drain(order) => PublishCounts(s, order);
    case AddStat(i) =>
    case Bill(i) =>
    case Finish =>
  }

  // ---- whole runs ---------------------------------------------------------------------------

  ghost predicate IsRun(limit: int, states: seq<State>, events: seq<Event>) {
    && |states| == |events| + 1
    && states[0] == Init
    && forall i :: 0 <= i < |events| ==> Enabled(states[i], events[i]) && states[i + 1] == Apply(limit, states[i], events[i])
  }

  lemma {:induction false} RunKeepsInv(limit: int, states: seq<State>, events: seq<Event>)
    requires IsRun(limit, states, events)
    ensures forall i :: 0 <= i < |states| ==> Inv(limit, states[i])
  {
    hide Enabled, Apply, Inv;
    if events == [] {
      InitKeepsInv(limit);
    } else {
      var n := |events| - 1;
      RunKeepsInv(limit, states[..n + 1], events[..n]);
      assert states[..n + 1][n] == states[n];
      StepKeepsInv(limit, states[n], events[n]);
    }
  }

  lemma InitKeepsInv(limit: int)
    ensures Inv(limit, Init)
  {
  }

  /** The sizes taken from the channel in a run, for one key. */
  function Taken(events: seq<Event>, k: Key): int {
    if events == [] then 0
    else
      var e := events[|events| - 1];
      Taken(events[..|events| - 1], k) + if e.Receive? && e.key == k then e.size else 0
  }

  lemma ReceivedStep(limit: int, s: State, e: Event, k: Key)
    requires Enabled(s, e)
    ensures Get(Apply(limit, s, e).received, k) == Get(s.received, k) + if e.Receive? && e.key == k then e.size else 0
  {
    match e {
      case Receive(_, _) => case Timeout(_) => case Drain(_) => case AddStat(_) => case Bill(_) => case Finish =>
    }
  }

  lemma {:induction false} ReceivedIsTaken(limit: int, states: seq<State>, events: seq<Event>, k: Key)
    requires IsRun(limit, states, events)
    ensures Get(states[|events|].received, k) == Taken(events, k)
  {
    hide Enabled, Apply;
    if events != [] {
      var n := |events| - 1;
      ReceivedIsTaken(limit, states[..n + 1], events[..n], k);
      assert states[..n + 1][n] == states[n];
      ReceivedStep(limit, states[n], events[n], k);
    }
  }

  /** Once serve has signalled that it is done, every byte it received for a key has been
      billed, exactly once, and the statistics show it, whichever exits the batches took. */
  lemma DrainBillsEverything(limit: int, states: seq<State>, events: seq<Event>, k: Key)
    requires IsRun(limit, states, events) && states[|events|].phase.Done?
    ensures Sum(states[|events|].billed, k) == Taken(events, k)
    ensures Get(states[|events|].stat, k) == Taken(events, k)
  {
    RunKeepsInv(limit, states, events);
    ReceivedIsTaken(limit, states, events, k);
    assert Balanced(states[|events|], k);
  }

  // ---- when a recorder leaves the cache -----------------------------------------------------

  lemma CacheStep(limit: int, s: State, e: Event, k: Key)
    requires Enabled(s, e)
    ensures
      var t := Apply(limit, s, e);
      var sum := Get(s.cache, k) + if e.Receive? && e.key == k then e.size else 0;
      if e.Timeout? || e.Drain? then k !in t.cache
      else if e.Receive? && e.key == k then (k in t.cache <==> sum <= limit) && (k in t.cache ==> t.cache[k] == sum)
      else (k in t.cache <==> k in s.cache) && Get(t.cache, k) == Get(s.cache, k)
  {
    hide Batch, Visits;
    match e {
      case Receive(_, _) => case Timeout(_) => case Drain(_) => case AddStat(_) => case Bill(_) => case Finish =>
    }
  }

  lemma QueuedStep(limit: int, s: State, e: Event)
    requires Enabled(s, e) && e.Receive?
    ensures
      var t := Apply(limit, s, e);
      var sum := Get(s.cache, e.key) + e.size;
      t.queued == s.queued + if sum > limit then [Record(e.key, sum)] else []
  {
    hide Visits;
  }

  /** The key is out of the cache at lo and has been in it since, up to i. */
  ghost predicate CachedSince(states: seq<State>, lo: nat, i: nat, k: Key)
    requires lo <= i < |states|
  {
    k !in states[lo].cache && forall m :: lo < m <= i ==> k in states[m].cache
  }

  lemma TakenNext(events: seq<Event>, lo: nat, i: nat, k: Key)
    requires lo <= i < |events|
    ensures Taken(events[lo..i + 1], k) == Taken(events[lo..i], k) + if events[i].Receive? && events[i].key == k then events[i].size else 0
  {
    assert events[lo..i + 1][..i - lo] == events[lo..i];
  }

  /** What is cached for a key is all that was received for it since it was last out of the
      cache. */
  lemma {:induction false} CachedIsTaken(limit: int, states: seq<State>, events: seq<Event>, lo: nat, i: nat, k: Key)
    requires IsRun(limit, states, events) && lo <= i < |states| && CachedSince(states, lo, i, k)
    ensures Get(states[i].cache, k) == Taken(events[lo..i], k)
    decreases i
  {
    hide Enabled, Apply;
    if lo < i {
      CachedIsTaken(limit, states, events, lo, i - 1, k);
      CacheStep(limit, states[i - 1], events[i - 1], k);
      TakenNext(events, lo, i - 1, k);
    }
  }

  /** There always is such a point. */
  lemma {:induction false} LastOut(limit: int, states: seq<State>, events: seq<Event>, i: nat, k: Key) returns (lo: nat)
    requires IsRun(limit, states, events) && i < |states|
    ensures lo <= i && CachedSince(states, lo, i, k)
  {
    hide Enabled, Apply;
    lo := i;
    if k in states[i].cache {
      lo := LastOut(limit, states, events, i - 1, k);
    }
  }

  /** A receive hands the recorder of its key off exactly if what was received for that key
      since it was last out of the cache, this receive included, passes the limit; otherwise
      all of it is cached and nothing is handed off. */
  lemma ReceiveHandsOffIff(limit: int, states: seq<State>, events: seq<Event>, lo: nat, i: nat)
    requires IsRun(limit, states, events) && lo <= i < |events| && events[i].Receive?
    requires CachedSince(states, lo, i, events[i].key)
    ensures
      var k, total := events[i].key, Taken(events[lo..i + 1], events[i].key);
      if total > limit then
        k !in states[i + 1].cache && states[i + 1].queued == states[i].queued + [Record(k, total)]
      else
        k in states[i + 1].cache && states[i + 1].cache[k] == total && states[i + 1].queued == states[i].queued
  {
    hide Enabled, Apply;
    var k := events[i].key;
    CachedIsTaken(limit, states, events, lo, i, k);
    TakenNext(events, lo, i, k);
    CacheStep(limit, states[i], events[i], k);
    QueuedStep(limit, states[i], events[i]);
  }

  /** A cached key leaves the cache at a timeout, at the end of serve and when it passes the
      limit, and at no other moment. */
  lemma LeavesCacheIff(limit: int, states: seq<State>, events: seq<Event>, i: nat, k: Key)
    requires IsRun(limit, states, events) && i < |events| && k in states[i].cache
    ensures k !in states[i + 1].cache <==>
      || events[i].Timeout? || events[i].Drain?
      || (events[i].Receive? && events[i].key == k && states[i].cache[k] + events[i].size > limit)
  {
    hide Enabled, Apply;
    CacheStep(limit, states[i], events[i], k);
  }

  lemma {:induction false} BatchHolds(cache: map<Key, int>, order: seq<Key>)
    requires forall k :: k in order ==> k in cache
    ensures |Batch(cache, order)| == |order|
    ensures forall i :: 0 <= i < |order| ==> Batch(cache, order)[i] == Record(order[i], cache[order[i]])
  {
    if order != [] {
      BatchHolds(cache, order[1..]);
    }
  }

  lemma PublishStep(limit: int, s: State, e: Event) returns (order: seq<Key>)
    requires Enabled(s, e) && (e.Timeout? || e.Drain?)
    ensures Visits(order, s.cache)
    ensures Apply(limit, s, e).cache == map[] && Apply(limit, s, e).queued == s.queued + Batch(s.cache, order)
  {
    order := e.order;
    hide Visits, Batch;
  }

  /** A timeout, or the end of serve, empties the cache and hands off every recorder that was
      in it, each once and with its sum. */
  lemma PublishHandsOffAll(limit: int, states: seq<State>, events: seq<Event>, i: nat) returns (batch: seq<Record>)
    requires IsRun(limit, states, events) && i < |events| && (events[i].Timeout? || events[i].Drain?)
    ensures states[i + 1].cache == map[] && states[i + 1].queued == states[i].queued + batch
    ensures |batch| == |states[i].cache|
    ensures forall k :: k in states[i].cache ==> Record(k, states[i].cache[k]) in batch
    ensures forall r :: r in batch ==> r.key in states[i].cache && r.size == states[i].cache[r.key]
  {
    hide Enabled, Apply;
    var cache := states[i].cache;
    var order := PublishStep(limit, states[i], events[i]);
    batch := Batch(cache, order);
    BatchHolds(cache, order);
    VisitsCount(order, cache.Keys);
    forall k | k in cache ensures Record(k, cache[k]) in batch {
      var j :| 0 <= j < |order| && order[j] == k;
      assert batch[j] == Record(k, cache[k]);
    }
  }

  // ---- every recorder handed off is billed once ---------------------------------------------------

  /** The recorders that have left the cache, wherever they are. */
  function Recorders(s: State): multiset<Record> {
    multiset(s.queued) + multiset(s.added) + multiset(s.billed)
  }

  /** The recorders that leave the cache at a step. */
  function LeftAt(limit: int, s: State, e: Event): seq<Record>
    requires Enabled(s, e)
  {
    match e
    case Receive(key, size) =>
      if Get(s.cache, key) + size > limit then [Record(key, Get(s.cache, key) + size)] else []
    case Timeout(order) => Batch(s.cache, order)
    case Drain(order) => Batch(s.cache, order)
    case AddStat(_) => []
    case Bill(_) => []
    case Finish => []
  }

  lemma WithoutOne<T>(q: seq<T>, i: nat)
    requires i < |q|
    ensures multiset(q) == multiset(Without(q, i)) + multiset([q[i]])
  {
    assert q == q[..i] + [q[i]] + q[i + 1..];
  }

  lemma AddStatRecorders(limit: int, s: State, i: nat)
    requires Enabled(s, AddStat(i))
    ensures Recorders(Apply(limit, s, AddStat(i))) == Recorders(s)
  {
    hide Without;
    WithoutOne(s.queued, i);
  }

  lemma BillRecorders(limit: int, s: State, i: nat)
    requires Enabled(s, Bill(i))
    ensures Recorders(Apply(limit, s, Bill(i))) == Recorders(s)
  {
    hide Without;
    WithoutOne(s.added, i);
  }

  lemma LeavingRecorders(limit: int, s: State, e: Event)
    requires Enabled(s, e) && !e.AddStat? && !e.Bill?
    ensures Recorders(Apply(limit, s, e)) == Recorders(s) + multiset(LeftAt(limit, s, e))
  {
    hide Batch, Visits;
    match e {
      case Receive(_, _) => case Timeout(_) => case Drain(_) => case Finish =>
    }
  }

  lemma RecordersStep(limit: int, s: State, e: Event)
    requires Enabled(s, e)
    ensures Recorders(Apply(limit, s, e)) == Recorders(s) + multiset(LeftAt(limit, s, e))
  {
    hide Enabled, Apply, Recorders, Batch;
    if e.AddStat? {
      AddStatRecorders(limit, s, e.i);
    } else if e.Bill? {
      BillRecorders(limit, s, e.i);
    } else {
      LeavingRecorders(limit, s, e);
    }
  }

  /** All recorders that left the cache in a run. */
  ghost function AllLeft(limit: int, states: seq<State>, events: seq<Event>): multiset<Record>
    requires IsRun(limit, states, events)
  {
    if events == [] then multiset{}
    else
      var n := |events| - 1;
      AllLeft(limit, states[..n + 1], events[..n]) + multiset(LeftAt(limit, states[n], events[n]))
  }

  /** At every point of every run each recorder that has left the cache is, whole and once, with
      a goroutine or billed; when serve has signalled that it is done, all are billed. */
  lemma {:induction false} RecordersOnce(limit: int, states: seq<State>, events: seq<Event>)
    requires IsRun(limit, states, events)
    ensures Recorders(states[|events|]) == AllLeft(limit, states, events)
    ensures states[|events|].phase.Done? ==> multiset(states[|events|].billed) == AllLeft(limit, states, events)
  {
    hide Enabled, Apply, LeftAt, Inv, Recorders;
    RunKeepsInv(limit, states, events);
    if events == [] {
      NothingRecorded();
    } else {
      var n := |events| - 1;
      RecordersOnce(limit, states[..n + 1], events[..n]);
      assert states[..n + 1][n] == states[n];
      RecordersStep(limit, states[n], events[n]);
    }
    DoneRecorders(limit, states[|events|]);
  }

  lemma NothingRecorded()
    ensures Recorders(Init) == multiset{}
  {
  }

  lemma DoneRecorders(limit: int, s: State)
    requires Inv(limit, s)
    ensures s.phase.Done? ==> Recorders(s) == multiset(s.billed)
  {
    hide Conserved;
  }

  // ---- the phases, and that draining ends ---------------------------------------------------------

  lemma PhaseStep(limit: int, s: State, e: Event)
    requires Enabled(s, e)
    ensures Apply(limit, s, e).phase == if e.Drain? then Draining else if e.Finish? then Done else s.phase
    ensures e.Receive? || e.Timeout? || e.Drain? ==> s.phase.Serving?
    ensures e.Finish? ==> s.phase.Draining?
  {
    hide Batch, Visits;
  }

  /** serve serves until it is told to end, and signals once. */
  lemma {:induction false} PhaseTold(limit: int, states: seq<State>, events: seq<Event>, i: nat)
    requires IsRun(limit, states, events) && i < |states|
    ensures states[i].phase.Serving? <==> forall m :: 0 <= m < i ==> !events[m].Drain?
    ensures states[i].phase.Done? <==> exists m :: 0 <= m < i && events[m].Finish?
  {
    hide Enabled, Apply;
    if i > 0 {
      PhaseTold(limit, states, events, i - 1);
      PhaseStep(limit, states[i - 1], events[i - 1]);
    }
  }

  /** The steps that are left for the recorders handed off. */
  function Work(s: State): nat {
    2 * |s.queued| + |s.added| + if s.phase.Done? then 0 else 1
  }

  lemma WorkFalls(limit: int, s: State, e: Event)
    requires Enabled(s, e) && !s.phase.Serving?
    ensures Work(Apply(limit, s, e)) < Work(s) && !Apply(limit, s, e).phase.Serving?
  {
    hide Visits;
  }

  /** Once serve has been told to end, something is left to do until it has signalled, and it
      signals after finitely many steps. */
  lemma DrainGoesOn(limit: int, s: State)
    requires Inv(limit, s) && s.phase.Draining?
    ensures Enabled(s, AddStat(0)) || Enabled(s, Bill(0)) || Enabled(s, Finish)
  {
    hide Conserved;
  }

  lemma {:induction false} DrainEnds(limit: int, states: seq<State>, events: seq<Event>, lo: nat, hi: nat)
    requires IsRun(limit, states, events) && lo <= hi < |states| && !states[lo].phase.Serving?
    ensures hi - lo + Work(states[hi]) <= Work(states[lo]) && !states[hi].phase.Serving?
    decreases hi
  {
    hide Enabled, Apply, Work;
    if lo < hi {
      DrainEnds(limit, states, events, lo, hi - 1);
      WorkFalls(limit, states[hi - 1], events[hi - 1]);
    }
  }

  // ---- the object -----------------------------------------------------------------------------

  /** What the cache points to; a goroutine that publishes it holds the same pointer. */
  class Recorder {
    const pathKey: Key
    var cumSize: int

    constructor (pathKey: Key, cumSize: int)
      ensures this.pathKey == pathKey && this.cumSize == cumSize
    {
      this.pathKey, this.cumSize := pathKey, cumSize;
    }
  }

  ghost function Snapshot(rs: seq<Recorder>): seq<Record>
    reads rs
  {
    seq(|rs|, i requires 0 <= i < |rs| reads rs => Record(rs[i].pathKey, rs[i].cumSize))
  }

  lemma SnapshotConcat(a: seq<Recorder>, b: seq<Recorder>)
    ensures Snapshot(a + b) == Snapshot(a) + Snapshot(b)
  {
  }

  predicate NoDup(rs: seq<Recorder>) {
    forall i, j :: 0 <= i < j < |rs| ==> rs[i] != rs[j]
  }

  lemma NoDupWithout(rs: seq<Recorder>, i: nat)
    requires NoDup(rs) && i < |rs|
    ensures NoDup(Without(rs, i)) && rs[i] !in Without(rs, i)
    ensures forall r :: r in Without(rs, i) ==> r in rs
    ensures |Without(rs, i)| == |rs| - 1
  {
  }

  lemma NoDupConcat(a: seq<Recorder>, b: seq<Recorder>)
    requires NoDup(a) && NoDup(b) && forall r :: r in b ==> r !in a
    ensures NoDup(a + b)
    ensures forall r :: r in a + b <==> r in a || r in b
  {
    forall i, j | 0 <= i < j < |a + b| ensures (a + b)[i] != (a + b)[j] {
      if i < |a| <= j {
        assert (a + b)[i] in a && (a + b)[j] in b;
      }
    }
  }

  lemma SnapshotWithout(rs: seq<Recorder>, i: nat)
    requires i < |rs|
    ensures Snapshot(Without(rs, i)) == Without(Snapshot(rs), i)
    ensures Snapshot(rs)[i] == Record(rs[i].pathKey, rs[i].cumSize)
    ensures Snapshot([rs[i]]) == [Snapshot(rs)[i]]
  {
  }

  ghost function Sizes(cache: map<Key, Recorder>): map<Key, int>
    reads cache.Values
  {
    map k | k in cache :: cache[k].cumSize
  }

  class Manager {
    const limit: int
    var phase: Phase
    var cache: map<Key, Recorder>
    var queued: seq<Recorder>
    var added: seq<Recorder>
    var stat: map<Key, int>
    var billed: seq<Record>
    var wg: int
    ghost var received: map<Key, int>

    ghost function Abs(): State
      reads this, cache.Values, queued, added
    {
      State(phase, Sizes(cache), Snapshot(queued), Snapshot(added), stat, billed, wg, received)
    }

    /** A recorder is cached under its own key or with one goroutine, never both. */
    ghost predicate Separate()
      reads this`cache, this`queued, this`added
    {
      && (forall k :: k in cache ==> cache[k].pathKey == k && cache[k] !in queued && cache[k] !in added)
      && NoDup(queued) && NoDup(added)
      && (forall r :: r in queued ==> r !in added)
    }

    ghost predicate Valid()
      reads this, cache.Values, queued, added
    {
      Separate() && Inv(limit, Abs())
    }

    constructor (limit: int)
      ensures this.limit == limit && Valid() && Abs() == Init
    {
      this.limit := limit;
      phase, cache, queued, added := Serving, map[], [], [];
      stat, billed, wg, received := map[], [], 0, map[];
    }

    /** cache[key], made or increased.  Recorders elsewhere keep their sizes. */
    method Accumulate(key: Key, size: int) returns (dr: Recorder)
      requires Separate()
      modifies this`cache, if key in cache then {cache[key]} else {}
      ensures Separate() && key in cache && cache[key] == dr
      ensures Sizes(cache) == old(Sizes(cache))[key := Get(old(Sizes(cache)), key) + size]
      ensures Snapshot(queued) == old(Snapshot(queued)) && Snapshot(added) == old(Snapshot(added))
    {
      if key in cache {
        dr := cache[key];
        dr.cumSize := dr.cumSize + size;
      } else {
        dr := new Recorder(key, size);
        cache := cache[key := dr];
      }
    }

    /** The recorder passed the limit: it leaves the cache for a goroutine of its own. */
    method HandOff(key: Key)
      requires Separate() && key in cache
      modifies this`cache, this`queued, this`wg
      ensures Separate() && queued == old(queued) + [old(cache[key])] && wg == old(wg) + 1
      ensures Sizes(cache) == old(Sizes(cache)) - {key}
      ensures Snapshot(queued) == old(Snapshot(queued)) + [Record(key, old(cache[key].cumSize))]
    {
      var dr := cache[key];
      SnapshotConcat(queued, [dr]);
      NoDupConcat(queued, [dr]);
      hide NoDup, Snapshot;
      cache := cache - {key};
      wg := wg + 1;
      queued := queued + [dr];
    }

    /** serve receives a download.  Only the cached recorder of its key may change: one that
        a goroutine holds is as it was when it left the cache. */
    method Receive(key: Key, size: int)
      requires Valid() && phase.Serving? && size > 0
      modifies this, if key in cache then {cache[key]} else {}
      ensures Valid() && Abs() == Apply(limit, old(Abs()), Event.Receive(key, size))
      ensures Snapshot(old(queued)) == old(Snapshot(queued)) && Snapshot(old(added)) == old(Snapshot(added))
      ensures old(queued) <= queued && added == old(added)
      ensures
        var before, sum := old(Sizes(cache)), Get(old(Sizes(cache)), key) + size;
        && (sum <= limit ==> Sizes(cache) == before[key := sum] && queued == old(queued) && wg == old(wg))
        && (sum > limit ==>
              && Sizes(cache) == before - {key} && wg == old(wg) + 1
              && Snapshot(queued) == old(Snapshot(queued)) + [Record(key, sum)])
      ensures stat == old(stat) && billed == old(billed) && phase == old(phase)
    {
      hide Inv, Snapshot, Visits, Separate, Batch, Publish, Apply, Enabled, Sizes, Plus;
      ghost var s := Abs();
      ReceiveIs(limit, s, key, size);
      StepKeepsInv(limit, s, Event.Receive(key, size));
      TakeIn(key, size);
      received := Plus(received, key, size);
    }

    /** The case of serve's select that receives, but for the history it leaves. */
    method TakeIn(key: Key, size: int)
      requires Separate() && size > 0
      modifies this`cache, this`queued, this`wg, if key in cache then {cache[key]} else {}
      ensures Separate() && Snapshot(old(queued)) == old(Snapshot(queued)) && Snapshot(added) == old(Snapshot(added))
      ensures
        var before, cum := old(Sizes(cache)), Get(old(Sizes(cache)), key) + size;
        if cum > limit then
          && Sizes(cache) == before - {key} && wg == old(wg) + 1 && old(queued) <= queued
          && Snapshot(queued) == old(Snapshot(queued)) + [Record(key, cum)]
        else
          && Sizes(cache) == before[key := cum] && wg == old(wg) && queued == old(queued)
    {
      hide Snapshot, Separate;
      ghost var before := Sizes(cache);
      var dr := Accumulate(key, size);
      assert Sizes(cache)[key] == dr.cumSize;
      if dr.cumSize > limit {
        HandOff(key);
        assert Sizes(cache) == before - {key};
      }
    }

    /** publishOne's first half: the recorder's size goes into the statistics. */
    method AddToStat(i: nat)
      requires Valid() && i < |queued|
      modifies this
      ensures Valid() && Abs() == Apply(limit, old(Abs()), AddStat(i))
      ensures queued == Without(old(queued), i) && added == old(added) + [old(queued)[i]]
      ensures
        var dr := old(queued)[i];
        stat == old(stat)[dr.pathKey := Get(old(stat), dr.pathKey) + old(dr.cumSize)]
      ensures cache == old(cache) && billed == old(billed) && wg == old(wg) && phase == old(phase)
    {
      hide Inv, Without, Visits, Separate, Conserved;
      ghost var s := Abs();
      CountSnapshot(queued);
      StepKeepsInv(limit, s, AddStat(i));
      var dr := queued[i];
      stat := Plus(stat, dr.pathKey, dr.cumSize);
      MoveOver(i);
      SnapshotWithout(old(queued), i);
      SnapshotConcat(old(added), [dr]);
      assert Snapshot(old(queued)) == s.queued && Snapshot(old(added)) == s.added;
      assert Sizes(cache) == s.cache;
    }

    method MoveOver(i: nat)
      requires Separate() && i < |queued|
      modifies this`queued, this`added
      ensures Separate() && queued == Without(old(queued), i) && added == old(added) + [old(queued)[i]]
    {
      NoDupWithout(queued, i);
      NoDupConcat(added, [queued[i]]);
      hide NoDup, Without;
      queued, added := Without(queued, i), added + [queued[i]];
    }

    /** Its second half: the handler bills the size, and the deferred Done runs. */
    method CallHandler(i: nat)
      requires Valid() && i < |added|
      modifies this
      ensures Valid() && Abs() == Apply(limit, old(Abs()), Bill(i))
      ensures
        var dr := old(added)[i];
        billed == old(billed) + [Record(dr.pathKey, old(dr.cumSize))]
      ensures added == Without(old(added), i) && wg == old(wg) - 1
      ensures cache == old(cache) && queued == old(queued) && stat == old(stat) && phase == old(phase)
    {
      hide Inv, Without, Visits, Separate, Conserved;
      ghost var s := Abs();
      CountSnapshot(added);
      StepKeepsInv(limit, s, Bill(i));
      var dr := added[i];
      billed := billed + [Record(dr.pathKey, dr.cumSize)];
      Forget(i);
      wg := wg - 1;
      SnapshotWithout(old(added), i);
      assert Snapshot(old(added)) == s.added;
      assert Sizes(cache) == s.cache;
    }

    method Forget(i: nat)
      requires Separate() && i < |added|
      modifies this`added
      ensures Separate() && added == Without(old(added), i)
    {
      NoDupWithout(added, i);
      hide NoDup, Without;
      added := Without(added, i);
    }

    /** The snapshot of the cache in the order a range over it visits it. */
    method CollectBatch() returns (batch: seq<Recorder>, ghost order: seq<Key>)
      requires Separate()
      ensures Visits(order, Sizes(cache)) && |batch| == |order| == |cache| && NoDup(batch)
      ensures forall r :: r in batch ==> r in cache.Values
      ensures Snapshot(batch) == Batch(Sizes(cache), order)
    {
      batch, order := [], [];
      var left := cache.Keys;
      while left != {}
        invariant left <= cache.Keys
        invariant forall k :: k in order <==> k in cache && k !in left
        invariant forall i, j :: 0 <= i < j < |order| ==> order[i] != order[j]
        invariant |batch| == |order| && NoDup(batch)
        invariant forall r :: r in batch ==> r.pathKey in cache && r.pathKey !in left && cache[r.pathKey] == r
        invariant Snapshot(batch) == Batch(Sizes(cache), order)
        decreases left
      {
        var k :| k in left;
        BatchSnoc(Sizes(cache), order, k);
        SnapshotConcat(batch, [cache[k]]);
        NoDupConcat(batch, [cache[k]]);
        hide NoDup, Snapshot, Batch;
        batch := batch + [cache[k]];
        order := order + [k];
        left := left - {k};
      }
      VisitsCount(order, cache.Keys);
    }

    /** A timeout, or the end of serve: every cached recorder goes to a batch. */
    method PublishCache(draining: bool) returns (ghost order: seq<Key>)
      requires Valid() && phase.Serving?
      modifies this
      ensures Visits(order, old(Abs()).cache)
      ensures Valid() && cache == map[]
      ensures Abs() == Apply(limit, old(Abs()), if draining then Event.Drain(order) else Event.Timeout(order))
      ensures |queued| == |old(queued)| + |old(cache)| && queued[..|old(queued)|] == old(queued) && NoDup(queued)
      ensures forall r :: r in queued[|old(queued)|..] ==> r in old(cache).Values
      ensures wg == old(wg) + |old(cache)| && phase == if draining then Draining else Serving
      ensures added == old(added) && stat == old(stat) && billed == old(billed)
    {
      hide Inv, Snapshot, Batch, Visits, Separate;
      ghost var s := Abs();
      var batch;
      batch, order := CollectBatch();
      EmptyInto(batch);
      SnapshotConcat(old(queued), batch);
      StepKeepsInv(limit, s, if draining then Event.Drain(order) else Event.Timeout(order));
      assert Abs() == Publish(s, order);
      if draining {
        phase := Draining;
      }
    }

    method EmptyInto(batch: seq<Recorder>)
      requires Separate() && NoDup(batch) && forall r :: r in batch ==> r in cache.Values
      modifies this`cache, this`queued, this`wg
      ensures Separate() && cache == map[] && Sizes(cache) == map[]
      ensures queued == old(queued) + batch && NoDup(queued)
      ensures wg == old(wg) + |old(cache)| && |old(Sizes(cache))| == |old(cache)|
    {
      assert cache.Keys == Sizes(cache).Keys;
      NoDupConcat(queued, batch);
      hide NoDup;
      wg := wg + |cache|;
      cache := map[];
      queued := queued + batch;
    }

    /** The deferred part of serve: once the wait group is empty, doneC is signalled, and
        what has been billed is what the statistics say and all that was received. */
    method SignalDone()
      requires Valid() && phase.Draining? && wg == 0
      modifies this`phase
      ensures Valid() && phase.Done? && Abs() == Apply(limit, old(Abs()), Finish)
      ensures forall k: Key :: Get(stat, k) == Get(received, k) == Sum(billed, k)
    {
      ghost var s := Abs();
      StepKeepsInv(limit, s, Finish);
      phase := Done;
      assert Inv(limit, Abs());
      forall k: Key ensures Get(stat, k) == Get(received, k) == Sum(billed, k) {
        assert Balanced(Abs(), k);
      }
    }
  }

  lemma ReceiveIs(limit: int, s: State, key: Key, size: int)
    requires s.phase.Serving? && size > 0
    ensures Enabled(s, Event.Receive(key, size))
    ensures
      var sum, t := Get(s.cache, key) + size, Apply(limit, s, Event.Receive(key, size));
      && (sum > limit ==>
            t == s.(received := Plus(s.received, key, size), cache := s.cache - {key},
                    queued := s.queued + [Record(key, sum)], wg := s.wg + 1))
      && (sum <= limit ==> t == s.(received := Plus(s.received, key, size), cache := s.cache[key := sum]))
  {
  }

  lemma CountSnapshot(rs: seq<Recorder>)
    ensures |Snapshot(rs)| == |rs|
  {
  }

  lemma {:induction false} BatchSnoc(cache: map<Key, int>, order: seq<Key>, k: Key)
    requires (forall x :: x in order ==> x in cache) && k in cache
    ensures Batch(cache, order + [k]) == Batch(cache, order) + [Record(k, cache[k])]
  {
    if order != [] {
      BatchSnoc(cache, order[1..], k);
      assert (order + [k])[1..] == order[1..] + [k];
    }
  }
}

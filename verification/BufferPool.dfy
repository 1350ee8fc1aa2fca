/** The recycling buffer pool of pkg/pool/pool.go.

    `State` is the pool between two critical sections, as a value; one function per
    critical section gives the state it leaves.  `Pool` is the object itself: its methods
    carry the source's loops and counters and are proved to compute those functions.

    A Go slice of bytes is modelled by the identity of its backing array, its length and
    its capacity.  All slices here start at the front of their array. */
module BufferPool {

  datatype Slice = Slice(id: nat, len: nat, cap: nat) {
    /** s[lo:hi]: Go allows hi up to the capacity; moving lo forward costs capacity. */
    function Reslice(lo: nat, hi: nat): Slice
      requires lo <= hi <= cap
    {
      Slice(id, hi - lo, cap - lo)
    }
  }

  datatype Config = Config(bufferSize: nat, poolSize: nat)

  /** The fields of the Go struct, then what the model remembers about the past:
      out    the arrays handed to clients and not returned,
      fills  len(cache) at the last flush and after every Get and Put since,
      base   the cache as the last flush left it,
      next   the first array identity the allocator has not used. */
  datatype State = State(
    cache: seq<Slice>, minFill: nat, inUse: int, alloced: int, flushPending: bool,
    out: set<nat>, fills: seq<nat>, base: seq<Slice>, next: nat)

  function Min(s: seq<nat>): nat
    requires s != []
  {
    if |s| == 1 then s[0]
    else
      var m := Min(s[..|s| - 1]);
      if s[|s| - 1] < m then s[|s| - 1] else m
  }

  const Empty := State([], 0, 0, 0, false, {}, [0], [], 0)

  // ---- the critical sections -------------------------------------------------------

  /** updateMinFill, and the entry it adds to the history. */
  function UpdateMinFill(s: State): State {
    s.(minFill := if |s.cache| < s.minFill then |s.cache| else s.minFill,
       fills := s.fills + [|s.cache|])
  }

  /** The last, successful, pass of Get's loop: the array taken is the last one cached, or
      a new one when the cache is empty. */
  function Got(c: Config, s: State): Slice {
    if s.cache != [] then s.cache[|s.cache| - 1] else Slice(s.next, c.bufferSize, c.bufferSize)
  }

  function AfterGet(c: Config, s: State): State {
    var t :=
      if s.cache != [] then s.(cache := s.cache[..|s.cache| - 1])
      else s.(alloced := s.alloced + 1, next := s.next + 1);
    UpdateMinFill(t.(inUse := t.inUse + 1, out := t.out + {Got(c, s).id}))
  }

  /** Put panics, before it changes anything, on a slice of the wrong capacity. */
  predicate PutPanics(c: Config, b: Slice) {
    b.cap != c.bufferSize
  }

  function AfterPut(c: Config, s: State, b: Slice): State
    requires !PutPanics(c, b)
  {
    var t :=
      if |s.cache| < c.poolSize then s.(cache := s.cache + [b.Reslice(0, b.cap)])
      else s.(alloced := s.alloced - 1);
    UpdateMinFill(t.(inUse := t.inUse - 1, out := t.out - {b.id})).(flushPending := true)
  }

  /** flush(n): the n arrays cached last are freed and a new interval begins. */
  function AfterFlush(s: State, n: nat): State
    requires n <= |s.cache|
  {
    var left := s.cache[..|s.cache| - n];
    s.(cache := left, alloced := s.alloced - n, minFill := |left|, fills := [|left|], base := left)
  }

  function AfterFlushAged(s: State): State
    requires s.minFill <= |s.cache|
  {
    var t := AfterFlush(s.(flushPending := false), s.minFill);
    t.(flushPending := t.cache != [])
  }

  // ---- the invariant ----------------------------------------------------------------

  ghost predicate WholeBuffers(c: Config, s: State) {
    forall i :: 0 <= i < |s.cache| ==> s.cache[i].len == c.bufferSize && s.cache[i].cap == c.bufferSize
  }

  ghost predicate Disjoint(s: State) {
    && (forall i, j :: 0 <= i < j < |s.cache| ==> s.cache[i].id != s.cache[j].id)
    && (forall i :: 0 <= i < |s.cache| ==> s.cache[i].id !in s.out && s.cache[i].id < s.next)
    && (forall x :: x in s.out ==> x < s.next)
  }

  ghost predicate Counted(c: Config, s: State) {
    && s.inUse == |s.out|
    && s.alloced == |s.cache| + s.inUse
    && |s.cache| <= c.poolSize
  }

  /** minFill is the least fill of the interval, and the slots below it have not been
      touched since the interval began. */
  ghost predicate Aged(s: State) {
    && s.fills != []
    && s.fills[0] == |s.base|
    && s.fills[|s.fills| - 1] == |s.cache|
    && s.minFill == Min(s.fills)
    && s.minFill <= |s.cache| && s.minFill <= |s.base|
    && s.cache[..s.minFill] == s.base[..s.minFill]
  }

  ghost predicate Inv(c: Config, s: State) {
    && WholeBuffers(c, s)
    && Disjoint(s)
    && Counted(c, s)
    && Aged(s)
    && (s.cache != [] ==> s.flushPending)
  }

  lemma {:induction false} MinBounds(s: seq<nat>)
    requires s != []
    ensures Min(s) in s
    ensures forall i :: 0 <= i < |s| ==> Min(s) <= s[i]
  {
    if |s| > 1 {
      MinBounds(s[..|s| - 1]);
      assert s == s[..|s| - 1] + [s[|s| - 1]];
    }
  }

  /** A Get or a Put touches only the slots at and above the fill it leaves. */
  lemma TouchKeepsAged(s: State, t: State)
    requires Aged(s)
    requires t.fills == s.fills + [|t.cache|] && t.base == s.base
    requires t.minFill == if |t.cache| < s.minFill then |t.cache| else s.minFill
    requires t.cache[..t.minFill] == s.cache[..t.minFill]
    ensures Aged(t)
  {
    assert t.fills[..|t.fills| - 1] == s.fills;
    assert t.cache[..t.minFill] == s.cache[..s.minFill][..t.minFill];
    assert t.base[..t.minFill] == s.base[..s.minFill][..t.minFill];
  }

  /** A Get hands out an array that no other client holds and that has left the cache, of
      exactly the pool's size, and keeps the invariant. */
  lemma GetKeepsInv(c: Config, s: State)
    requires Inv(c, s)
    ensures Inv(c, AfterGet(c, s))
    ensures Got(c, s).id !in s.out && AfterGet(c, s).out == s.out + {Got(c, s).id}
    ensures Got(c, s).len == c.bufferSize && Got(c, s).cap == c.bufferSize
    ensures forall i :: 0 <= i < |AfterGet(c, s).cache| ==> AfterGet(c, s).cache[i].id != Got(c, s).id
  {
    TouchKeepsAged(s, AfterGet(c, s));
    hide Aged;
  }

  lemma PutKeepsInv(c: Config, s: State, b: Slice)
    requires Inv(c, s) && !PutPanics(c, b) && b.id in s.out
    ensures Inv(c, AfterPut(c, s, b))
  {
    hide Aged, Disjoint;
    PutStaysAged(c, s, b);
    PutStaysDisjoint(c, s, b);
  }

  lemma PutStaysAged(c: Config, s: State, b: Slice)
    requires Aged(s) && |s.cache| <= c.poolSize && !PutPanics(c, b)
    ensures Aged(AfterPut(c, s, b))
  {
    TouchKeepsAged(s, AfterPut(c, s, b));
  }

  lemma PutStaysDisjoint(c: Config, s: State, b: Slice)
    requires Disjoint(s) && !PutPanics(c, b) && b.id in s.out
    ensures Disjoint(AfterPut(c, s, b))
  {
  }

  lemma PutBreaksCount(c: Config, s: State, b: Slice)
    requires Counted(c, s) && !PutPanics(c, b) && b.id !in s.out
    ensures !Counted(c, AfterPut(c, s, b))
  {
    assert AfterPut(c, s, b).out == s.out;
  }

  /** A Put keeps the invariant exactly when the client holds what it returns: returning an
      array twice, or one that never came from the pool, breaks the in-use count. */
  lemma PutKeepsInvIff(c: Config, s: State, b: Slice)
    requires Inv(c, s) && !PutPanics(c, b)
    ensures Inv(c, AfterPut(c, s, b)) <==> b.id in s.out
  {
    hide Aged, Disjoint, WholeBuffers, Counted, AfterPut;
    if b.id in s.out {
      PutKeepsInv(c, s, b);
    } else {
      PutBreaksCount(c, s, b);
    }
  }

  /** flush(n) keeps the invariant but for the pending flag, which its callers set. */
  lemma FlushKeepsInv(c: Config, s: State, n: nat)
    requires Inv(c, s) && n <= |s.cache|
    ensures Inv(c, AfterFlush(s, n))
  {
  }

  /** flushAged never asks an empty cache for a buffer; it frees as many buffers as there
      are slots nobody touched during the interval, and leaves a flush pending exactly when
      something is still cached. */
  lemma FlushAgedCounts(c: Config, s: State)
    requires Inv(c, s)
    ensures s.minFill <= |s.cache|
    ensures Inv(c, AfterFlushAged(s))
    ensures |s.cache| - |AfterFlushAged(s).cache| == Min(s.fills)
    ensures s.cache[..Min(s.fills)] == s.base[..Min(s.fills)]
    ensures exists i :: 0 <= i < |s.fills| && s.fills[i] == Min(s.fills)
    ensures forall i :: 0 <= i < |s.fills| ==> Min(s.fills) <= s.fills[i]
    ensures AfterFlushAged(s).flushPending <==> AfterFlushAged(s).cache != []
  {
    MinBounds(s.fills);
  }

  /** The buffers nobody took or returned since the interval began: the lowest slots. */
  function Idle(s: State): seq<Slice>
    requires s.minFill <= |s.cache|
  {
    s.cache[..s.minFill]
  }

  /** The buffers an aged flush frees: the last ones cached. */
  function Freed(s: State): seq<Slice>
    requires s.minFill <= |s.cache|
  {
    s.cache[|s.cache| - s.minFill..]
  }

  function Arrays(q: seq<Slice>): set<nat> {
    set b | b in q :: b.id
  }

  /** The two ends of a stack of distinct arrays hold the same ones only if both are empty or
      both are all of it. */
  lemma StackEnds(q: seq<Slice>, m: nat)
    requires m <= |q| && forall i, j :: 0 <= i < j < |q| ==> q[i].id != q[j].id
    ensures Arrays(q[|q| - m..]) == Arrays(q[..m]) <==> m == 0 || m == |q|
  {
    var top, bottom := q[|q| - m..], q[..m];
    if m == |q| {
      assert top == q && bottom == q;
    } else if m > 0 {
      var last := q[|q| - 1];
      assert top[m - 1] == last && last.id in Arrays(top);
      forall b | b in bottom ensures b.id != last.id {
        var j :| 0 <= j < m && bottom[j] == b;
        assert q[j] == b;
      }
    } else {
      assert top == [] && bottom == [];
    }
  }

  /** The cache is a stack, so what is freed is what was cached last.  These are the idle
      buffers only if none or all of the cache was idle. */
  lemma FlushAgedFreesLast(c: Config, s: State)
    requires Inv(c, s)
    ensures s.minFill <= |s.cache| && s.cache == AfterFlushAged(s).cache + Freed(s)
    ensures s.minFill <= |s.base| && Idle(s) == s.base[..s.minFill] && |Freed(s)| == |Idle(s)|
    ensures Arrays(Freed(s)) == Arrays(Idle(s)) <==> s.minFill == 0 || s.minFill == |s.cache|
  {
    hide Arrays;
    StackEnds(s.cache, s.minFill);
    assert Idle(s) == s.base[..s.minFill];
    assert AfterFlushAged(s).cache == s.cache[..|s.cache| - s.minFill];
  }

  // Two clients take a new buffer each and return it; after a flush one is taken and returned
  // again.

  function Left(bufferSize: nat): Slice {
    Slice(0, bufferSize, bufferSize)
  }

  function Used(bufferSize: nat): Slice {
    Slice(1, bufferSize, bufferSize)
  }

  function UsedEvents(n: nat): seq<Event> {
    [Get, Get, Put(Left(n)), Put(Used(n)), FlushAged, Get, Put(Used(n)), FlushAged]
  }

  function UsedStates(n: nat): seq<State> {
    var a, b := Left(n), Used(n);
    [Empty,
     State([], 0, 1, 1, false, {0}, [0, 0], [], 1),
     State([], 0, 2, 2, false, {0, 1}, [0, 0, 0], [], 2),
     State([a], 0, 1, 2, true, {1}, [0, 0, 0, 1], [], 2),
     State([a, b], 0, 0, 2, true, {}, [0, 0, 0, 1, 2], [], 2),
     State([a, b], 2, 0, 2, true, {}, [2], [a, b], 2),
     State([a], 1, 1, 2, true, {1}, [2, 1], [a, b], 2),
     State([a, b], 1, 0, 2, true, {}, [2, 1, 2], [a, b], 2),
     State([a], 1, 0, 1, true, {}, [1], [a], 2)]
  }

  ghost predicate IsStep(c: Config, s: State, e: Event, t: State) {
    Enabled(c, s, e) && t == Apply(c, s, e)
  }

  lemma UsedTakes(n: nat)
    ensures var c, s, e := Config(n, 2), UsedStates(n), UsedEvents(n);
            IsStep(c, s[0], e[0], s[1]) && IsStep(c, s[1], e[1], s[2])
  {
  }

  lemma UsedReturns(n: nat)
    ensures var c, s, e := Config(n, 2), UsedStates(n), UsedEvents(n);
            IsStep(c, s[2], e[2], s[3]) && IsStep(c, s[3], e[3], s[4])
  {
  }

  lemma UsedAgain(n: nat)
    ensures var c, s, e := Config(n, 2), UsedStates(n), UsedEvents(n);
            IsStep(c, s[5], e[5], s[6]) && IsStep(c, s[6], e[6], s[7])
  {
  }

  lemma UsedFlushes(n: nat)
    ensures var c, s, e := Config(n, 2), UsedStates(n), UsedEvents(n);
            IsStep(c, s[4], e[4], s[5]) && IsStep(c, s[7], e[7], s[8])
  {
    var s := UsedStates(n);
    assert s[7].cache[..1] == [Left(n)] && s[4].cache[..2] == s[4].cache;
  }

  /** A run in which the buffer in use a moment ago is freed and the idle one is kept. */
  lemma FreesUsedKeepsIdle(n: nat)
    ensures
      var c, s, e := Config(n, 2), UsedStates(n), UsedEvents(n);
      && IsRun(c, s, e)
      && e[4] == e[7] == FlushAged && e[5] == Get && Got(c, s[5]) == Used(n)
      && s[7].minFill <= |s[7].cache| && Freed(s[7]) == [Used(n)] && Idle(s[7]) == s[8].cache == [Left(n)]
  {
    UsedTakes(n);
    UsedReturns(n);
    UsedAgain(n);
    UsedFlushes(n);
    hide Apply, Enabled;
    var c, s, e := Config(n, 2), UsedStates(n), UsedEvents(n);
    forall i | 0 <= i < |e| ensures IsStep(c, s[i], e[i], s[i + 1]) {
      assert i == 0 || i == 1 || i == 2 || i == 3 || i == 4 || i == 5 || i == 6 || i == 7;
    }
  }

  /** Two aged flushes with no traffic between them empty the cache. */
  lemma TwoQuietFlushesEmpty(c: Config, s: State)
    requires Inv(c, s)
    ensures Inv(c, AfterFlushAged(s))
    ensures AfterFlushAged(AfterFlushAged(s)).cache == []
    ensures AfterFlushAged(AfterFlushAged(s)).alloced == |s.out|
  {
    FlushAgedCounts(c, s);
  }

  // ---- whole runs -------------------------------------------------------------------

  /** What may happen to the pool.  GetFails is one pass of Get's loop in which the
      allocator refuses: the lock is dropped and nothing has changed. */
  datatype Event = Get | GetFails | Put(b: Slice) | FlushAged | Flush

  predicate Enabled(c: Config, s: State, e: Event) {
    match e
    case Get => true
    case GetFails => s.cache == []
    case Put(b) => b.id in s.out && !PutPanics(c, b)
    case FlushAged => s.minFill <= |s.cache|
    case Flush => true
  }

  function Apply(c: Config, s: State, e: Event): State
    requires Enabled(c, s, e)
  {
    match e
    case Get => AfterGet(c, s)
    case GetFails => s
    case Put(b) => AfterPut(c, s, b)
    case FlushAged => AfterFlushAged(s)
    case Flush => AfterFlush(s, |s.cache|)
  }

  lemma StepKeepsInv(c: Config, s: State, e: Event)
    requires Inv(c, s) && Enabled(c, s, e)
    ensures Inv(c, Apply(c, s, e))
  {
    match e
    case Get => GetKeepsInv(c, s);
    case GetFails =>
    case Put(b) => PutKeepsInvIff(c, s, b);
    case FlushAged => FlushAgedCounts(c, s);
    case Flush => FlushKeepsInv(c, s, |s.cache|);
  }

  ghost predicate IsRun(c: Config, states: seq<State>, events: seq<Event>) {
    && |states| == |events| + 1
    && states[0] == Empty
    && forall i :: 0 <= i < |events| ==> Enabled(c, states[i], events[i]) && states[i + 1] == Apply(c, states[i], events[i])
  }

  /** If clients return each buffer once, then at every unlock of every run the counters
      agree, the cache is within bounds, the buffers are pairwise distinct and whole, and
      minFill is the least fill of the interval. */
  lemma {:induction false} RunKeepsInv(c: Config, states: seq<State>, events: seq<Event>)
    requires IsRun(c, states, events)
    ensures forall i :: 0 <= i < |states| ==> Inv(c, states[i])
  {
    if events == [] {
    } else {
      var n := |events| - 1;
      RunKeepsInv(c, states[..n + 1], events[..n]);
      assert states[..n + 1][n] == states[n];
      StepKeepsInv(c, states[n], events[n]);
    }
  }

  // ---- what is handed out, told over runs -------------------------------------------

  /** A Get takes the last buffer cached and allocates only when there is none. */
  lemma GetReuses(c: Config, states: seq<State>, events: seq<Event>, k: nat)
    requires IsRun(c, states, events) && k < |events| && events[k] == Get
    ensures
      var s, t := states[k], states[k + 1];
      && t.out == s.out + {Got(c, s).id}
      && (s.cache != [] ==> s.cache == t.cache + [Got(c, s)] && t.alloced == s.alloced)
      && (s.cache == [] ==> t.cache == [] && t.alloced == s.alloced + 1 && (forall i :: 0 <= i <= k ==> Got(c, s).id !in states[i].out))
  {
    hide Aged, WholeBuffers, Counted;
    RunKeepsInv(c, states, events);
    forall i | 0 <= i <= k ensures states[k].next !in states[i].out {
      NextGrows(c, states, events, i, k);
    }
  }

  lemma NextStep(c: Config, s: State, e: Event)
    requires Enabled(c, s, e)
    ensures s.next <= Apply(c, s, e).next
  {
  }

  lemma {:induction false} NextGrows(c: Config, states: seq<State>, events: seq<Event>, i: nat, k: nat)
    requires IsRun(c, states, events) && i <= k < |states|
    ensures states[i].next <= states[k].next
    decreases k
  {
    hide Enabled, Apply;
    if i < k {
      NextGrows(c, states, events, i, k - 1);
      NextStep(c, states[k - 1], events[k - 1]);
    }
  }

  /** A Put caches the whole buffer if there is room and frees it if there is none. */
  lemma PutCachesIff(c: Config, states: seq<State>, events: seq<Event>, k: nat)
    requires IsRun(c, states, events) && k < |events| && events[k].Put?
    ensures
      var s, t, b := states[k], states[k + 1], events[k].b;
      && t.out == s.out - {b.id} && t.flushPending
      && (|s.cache| < c.poolSize ==> t.cache == s.cache + [Slice(b.id, c.bufferSize, c.bufferSize)] && t.alloced == s.alloced)
      && (|s.cache| == c.poolSize ==> t.cache == s.cache && t.alloced == s.alloced - 1)
  {
    hide Aged, WholeBuffers;
    RunKeepsInv(c, states, events);
  }

  /** Only a slot at or above the new fill is touched by an event that keeps more than n. */
  lemma SlotStep(c: Config, s: State, e: Event, n: nat)
    requires Enabled(c, s, e) && n < |s.cache| && n < |Apply(c, s, e).cache|
    ensures Apply(c, s, e).cache[n] == s.cache[n]
  {
  }

  lemma {:induction false} SlotStays(c: Config, states: seq<State>, events: seq<Event>, m: nat, k: nat, n: nat)
    requires IsRun(c, states, events) && m <= k < |states|
    requires forall i :: m <= i <= k ==> n < |states[i].cache|
    ensures states[k].cache[n] == states[m].cache[n]
    decreases k
  {
    hide Enabled, Apply;
    if m < k {
      SlotStays(c, states, events, m, k - 1, n);
      assert n < |states[k].cache| && n < |states[k - 1].cache|;
      SlotStep(c, states[k - 1], events[k - 1], n);
    }
  }

  /** The pool is a stack, whatever Gets, Puts and flushes there are: a buffer returned while
      there was room comes back when the fill first falls to what it was before. */
  lemma LastReturnedFirstReused(c: Config, states: seq<State>, events: seq<Event>, m: nat, k: nat)
    requires IsRun(c, states, events) && m < k < |events|
    requires events[m].Put? && |states[m].cache| < c.poolSize && events[k] == Get
    requires forall i :: m < i <= k ==> |states[m].cache| < |states[i].cache|
    requires |states[k + 1].cache| == |states[m].cache|
    ensures Got(c, states[k]) == Slice(events[m].b.id, c.bufferSize, c.bufferSize)
  {
    hide Enabled, Apply, AfterPut, AfterGet;
    PutCachesIff(c, states, events, m);
    GetReuses(c, states, events, k);
    SlotStays(c, states, events, m + 1, k, |states[m].cache|);
  }

  // ---- the object -------------------------------------------------------------------

  class Pool {
    const bufferSize: nat
    const poolSize: nat
    var cache: seq<Slice>
    var minFill: nat
    var inUse: int
    var alloced: int
    var flushPending: bool
    var next: nat
    ghost var out: set<nat>
    ghost var fills: seq<nat>
    ghost var base: seq<Slice>

    ghost function Conf(): Config {
      Config(bufferSize, poolSize)
    }

    ghost function Abs(): State
      reads this
    {
      State(cache, minFill, inUse, alloced, flushPending, out, fills, base, next)
    }

    ghost predicate Valid()
      reads this
    {
      Inv(Conf(), Abs())
    }

    constructor (bufferSize: nat, poolSize: nat)
      ensures this.bufferSize == bufferSize && this.poolSize == poolSize
      ensures Abs() == Empty && Valid()
    {
      this.bufferSize, this.poolSize := bufferSize, poolSize;
      cache, minFill, inUse, alloced, flushPending := [], 0, 0, 0, false;
      next, out, fills, base := 0, {}, [0], [];
    }

    /** Takes the last cached buffer; the caller has checked there is one. */
    method TakeLast() returns (buf: Slice)
      requires cache != []
      modifies this`cache
      ensures old(cache) == cache + [buf]
    {
      var n := |cache| - 1;
      buf := cache[n];
      cache := cache[..n];
    }

    method FreeBuffer(buf: Slice)
      modifies this`alloced
      ensures alloced == old(alloced) - 1
    {
      alloced := alloced - 1;
    }

    method RecordFill()
      modifies this`minFill, this`fills
      ensures Abs() == UpdateMinFill(old(Abs()))
    {
      if |cache| < minFill {
        minFill := |cache|;
      }
      fills := fills + [|cache|];
    }

    /** Frees the n buffers cached last, one at a time. */
    method FlushN(n: nat)
      requires n <= |cache|
      modifies this`cache, this`alloced, this`minFill, this`fills, this`base
      ensures Abs() == AfterFlush(old(Abs()), n)
      ensures cache == old(cache)[..|old(cache)| - n] && alloced == old(alloced) - n && minFill == |cache|
    {
      for i := 0 to n
        invariant cache == old(cache)[..|old(cache)| - i]
        invariant alloced == old(alloced) - i
      {
        var buf := TakeLast();
        FreeBuffer(buf);
      }
      minFill := |cache|;
      fills, base := [|cache|], cache;
    }

    method Flush()
      requires Valid()
      modifies this
      ensures Abs() == AfterFlush(old(Abs()), |old(cache)|)
      ensures Valid() && cache == [] && alloced == old(alloced) - |old(cache)| && inUse == old(inUse) && out == old(out)
    {
      FlushKeepsInv(Conf(), Abs(), |cache|);
      FlushN(|cache|);
    }

    method FlushAged()
      requires Valid()
      modifies this
      ensures minFill == |cache| && Abs() == AfterFlushAged(old(Abs()))
      ensures cache == old(cache)[..|old(cache)| - old(minFill)] && alloced == old(alloced) - old(minFill)
      ensures inUse == old(inUse) && out == old(out) && (flushPending <==> cache != [])
      ensures Valid()
    {
      FlushAgedCounts(Conf(), Abs());
      flushPending := false;
      FlushN(minFill);
      if |cache| != 0 {
        KickFlusher();
      }
    }

    method KickFlusher()
      modifies this`flushPending
      ensures flushPending
    {
      if flushPending {
        return;
      }
      flushPending := true;
    }

    /** One pass of Get's loop under the lock.  When the cache is empty and the allocator
        refuses, the lock is dropped with nothing changed. */
    method TryGet(refused: bool) returns (ok: bool, buf: Slice)
      requires Valid()
      modifies this
      ensures Valid()
      ensures ok <==> old(cache) != [] || !refused
      ensures ok ==> Abs() == AfterGet(Conf(), old(Abs())) && buf == Got(Conf(), old(Abs()))
      ensures ok ==> inUse == old(inUse) + 1 && out == old(out) + {buf.id} && flushPending == old(flushPending)
      ensures ok && old(cache) != [] ==> old(cache) == cache + [buf] && alloced == old(alloced)
      ensures ok && old(cache) == [] ==> cache == [] && alloced == old(alloced) + 1 && buf == Slice(old(next), bufferSize, bufferSize)
      ensures !ok ==> Abs() == old(Abs())
    {
      hide Inv;
      GetKeepsInv(Conf(), Abs());
      if |cache| > 0 {
        buf := TakeLast();
      } else if refused {
        return false, Slice(0, 0, 0);
      } else {
        buf := Slice(next, bufferSize, bufferSize);
        next := next + 1;
        alloced := alloced + 1;
      }
      ok := true;
      inUse := inUse + 1;
      out := out + {buf.id};
      RecordFill();
    }

    /** Other clients run while the lock is free.  Callers know only the contract: they keep
        the invariant and return only buffers of their own, so those in mine stay out. */
    method OthersRun(ghost mine: set<nat>)
      requires Valid() && mine <= out
      modifies this
      ensures Valid() && mine <= out
    {
      var steps: nat := *;
      while steps > 0
        invariant Valid() && mine <= out
      {
        GetKeepsInv(Conf(), Abs());
        hide Inv, Got;
        if * {
          var _, _ := TryGet(false);
        } else {
          FlushAged();
        }
        steps := steps - 1;
      }
    }

    /** Get, whose allocator refuses any number of times before it delivers.  Whatever
        happens meanwhile, the caller ends up with a whole buffer that nobody else holds
        and that is not in the cache. */
    method Get(refusals: nat, ghost mine: set<nat>) returns (buf: Slice)
      requires Valid() && mine <= out
      modifies this
      ensures Valid() && mine <= out
      ensures buf.id in out && buf.id !in mine
      ensures forall i :: 0 <= i < |cache| ==> cache[i].id != buf.id
      ensures buf.len == bufferSize && buf.cap == bufferSize
    {
      var left := refusals;
      while true
        invariant Valid() && mine <= out
        decreases left
      {
        GetKeepsInv(Conf(), Abs());
        var ok, b := TryGet(left > 0);
        if ok {
          return b;
        }
        OthersRun(mine);
        left := left - 1;
      }
    }

    /** Put.  On a slice of the wrong capacity it panics; the deferred unlock leaves the
        pool as it was. */
    method Put(buf: Slice) returns (panics: bool)
      requires Valid()
      modifies this
      ensures panics <==> PutPanics(Conf(), buf)
      ensures panics ==> Abs() == old(Abs())
      ensures !panics ==> Abs() == AfterPut(Conf(), old(Abs()), buf)
      ensures !panics && old(|cache| < poolSize) ==> cache == old(cache) + [Slice(buf.id, bufferSize, bufferSize)] && alloced == old(alloced)
      ensures !panics && old(|cache| >= poolSize) ==> cache == old(cache) && alloced == old(alloced) - 1
      ensures !panics ==> inUse == old(inUse) - 1 && out == old(out) - {buf.id} && flushPending
      ensures !panics ==> (Valid() <==> buf.id in old(out))
    {
      var whole := buf.Reslice(0, buf.cap);
      if whole.len != bufferSize {
        return true;
      }
      PutKeepsInvIff(Conf(), Abs(), buf);
      if |cache| < poolSize {
        cache := cache + [whole];
      } else {
        FreeBuffer(whole);
      }
      inUse := inUse - 1;
      out := out - {buf.id};
      RecordFill();
      KickFlusher();
      panics := false;
    }
  }
}

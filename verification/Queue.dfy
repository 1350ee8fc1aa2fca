/** The worker pool of pkg/queue/queue.go.

    Workers offer their job channel to the pool; a goroutine per submitted job takes a channel
    from the pool and sends the job on it.  A worker's channel is named by the worker's index.
    One event is the work between two channel operations, so all interleavings are runs. */
module Queue {
  import opened Basics

  const MAX_WORKER: nat := 10

  type Job = nat

  datatype Worker =
    | Unstarted
    | Offering          // about to send its channel to the pool
    | Waiting           // at the select over its channel and quit
    | Busy(job: Job)    // waiting for the action's context to be cancelled
    | Quit

  /** pool: the channels in it, oldest first.  carriers: the dispatch goroutines, by job, each
      with the channel it has taken, if any.  running: by worker, the job whose action has not
      returned; it may outlive a worker that quit.  started, returned: history. */
  datatype State = State(
    workers: seq<Worker>, pool: seq<nat>, carriers: map<Job, Option<nat>>, running: map<nat, Job>,
    submitted: set<Job>, started: seq<Job>, returned: set<Job>)

  function Init(n: nat): State {
    State(seq(n, _ => Unstarted), [], map[], map[], {}, [], {})
  }

  datatype Event =
    | StartWorker(w: nat)
    | Submit(job: Job)      // dispatch received the job and spawned a goroutine for it
    | Offer(w: nat)
    | Pick(job: Job)        // the goroutine takes a channel from the pool
    | Hand(job: Job)        // it sends the job to a worker that is waiting
    | Return(w: nat)        // the action returns, and its deferred cancel fires
    | Again(w: nat)         // the worker sees the cancelled context
    | Stop(w: nat)          // the worker receives from quit

  predicate Enabled(s: State, e: Event) {
    match e
    case StartWorker(w) => w < |s.workers| && s.workers[w].Unstarted?
    case Submit(job) => job !in s.submitted
    case Offer(w) => w < |s.workers| && s.workers[w].Offering? && |s.pool| < |s.workers|
    case Pick(job) => job in s.carriers && s.carriers[job].None? && s.pool != []
    case Hand(job) =>
      && job in s.carriers && s.carriers[job].Some?
      && s.carriers[job].value < |s.workers| && s.workers[s.carriers[job].value].Waiting?
    case Return(w) => w in s.running
    case Again(w) => w < |s.workers| && s.workers[w].Busy? && w !in s.running
    case Stop(w) => w < |s.workers| && (s.workers[w].Waiting? || s.workers[w].Busy?)
  }

  function Apply(s: State, e: Event): State
    requires Enabled(s, e)
  {
    match e
    case StartWorker(w) => s.(workers := s.workers[w := Offering])
    case Submit(job) => s.(carriers := s.carriers[job := None], submitted := s.submitted + {job})
    case Offer(w) => s.(workers := s.workers[w := Waiting], pool := s.pool + [w])
    case Pick(job) => s.(carriers := s.carriers[job := Some(s.pool[0])], pool := s.pool[1..])
    case Hand(job) =>
      var w := s.carriers[job].value;
      s.(workers := s.workers[w := Busy(job)], carriers := s.carriers - {job},
         running := s.running[w := job], started := s.started + [job])
    case Return(w) => s.(running := s.running - {w}, returned := s.returned + {s.running[w]})
    case Again(w) => s.(workers := s.workers[w := Offering])
    case Stop(w) => s.(workers := s.workers[w := Quit])
  }

  // ---- the invariant ---------------------------------------------------------------------

  ghost predicate Carried(s: State, w: nat) {
    exists j :: j in s.carriers && s.carriers[j] == Some(w)
  }

  /** A channel is in the pool at most once, or with at most one goroutine, never both; only
      a worker that offered it and has received nothing since has it out. */
  ghost predicate OnePlace(s: State) {
    && (forall i :: 0 <= i < |s.pool| ==> s.pool[i] < |s.workers|)
    && (forall i, k :: 0 <= i < k < |s.pool| ==> s.pool[i] != s.pool[k])
    && (forall j :: j in s.carriers && s.carriers[j].Some? ==>
          s.carriers[j].value < |s.workers| && s.carriers[j].value !in s.pool)
    && (forall j, k :: j in s.carriers && k in s.carriers && j != k && s.carriers[j].Some? ==> s.carriers[j] != s.carriers[k])
    && (forall w :: 0 <= w < |s.workers| && (s.workers[w].Unstarted? || s.workers[w].Offering? || s.workers[w].Busy?) ==>
          w !in s.pool && !Carried(s, w))
    && (forall w :: 0 <= w < |s.workers| && s.workers[w].Waiting? ==> w in s.pool || Carried(s, w))
  }

  /** Every running action was started by its worker, which has not been offered since. */
  ghost predicate RunningOwned(s: State) {
    && (forall w :: w in s.running ==> w < |s.workers| && (s.workers[w] == Busy(s.running[w]) || s.workers[w].Quit?))
    && (forall w :: w in s.running ==> s.running[w] in s.started && s.running[w] !in s.returned)
    && (forall v, w :: v in s.running && w in s.running && v != w ==> s.running[v] != s.running[w])
  }

  /** A channel that is on offer belongs to a worker with nothing running. */
  ghost predicate OfferedIdle(s: State) {
    forall w :: w in s.running ==> w !in s.pool && !Carried(s, w)
  }

  ghost predicate Runs(s: State, job: Job) {
    exists w :: w in s.running && s.running[w] == job
  }

  /** Each submitted job is still being carried or has been started, once; a started one is
      running or has returned. */
  ghost predicate JobsOnce(s: State) {
    && (forall j :: j in s.submitted <==> j in s.carriers || j in s.started)
    && (forall j :: j in s.carriers ==> j !in s.started)
    && (forall i, k :: 0 <= i < k < |s.started| ==> s.started[i] != s.started[k])
    && (forall j :: j in s.started ==> j in s.returned || Runs(s, j))
    && (forall j :: j in s.returned ==> j in s.started)
  }

  ghost predicate Inv(s: State) {
    OnePlace(s) && RunningOwned(s) && OfferedIdle(s) && JobsOnce(s)
  }

  lemma SameCarried(s: State, t: State)
    requires s.carriers == t.carriers
    ensures forall w :: Carried(t, w) <==> Carried(s, w)
  {
  }

  lemma SubmitCarries(s: State, job: Job, w: nat)
    requires JobsOnce(s) && Enabled(s, Submit(job))
    ensures Carried(Apply(s, Submit(job)), w) <==> Carried(s, w)
  {
    var t := Apply(s, Submit(job));
    if Carried(s, w) {
      var j :| j in s.carriers && s.carriers[j] == Some(w);
      assert t.carriers[j] == Some(w);
    }
  }

  lemma PickCarries(s: State, job: Job, w: nat)
    requires Enabled(s, Pick(job))
    ensures Carried(Apply(s, Pick(job)), w) <==> Carried(s, w) || w == s.pool[0]
  {
    var t := Apply(s, Pick(job));
    if Carried(s, w) {
      var j :| j in s.carriers && s.carriers[j] == Some(w);
      assert t.carriers[j] == Some(w);
    }
    assert t.carriers[job] == Some(s.pool[0]);
  }

  lemma HandCarries(s: State, job: Job, w: nat)
    requires OnePlace(s) && Enabled(s, Hand(job))
    ensures Carried(Apply(s, Hand(job)), w) <==> Carried(s, w) && w != s.carriers[job].value
  {
    var t := Apply(s, Hand(job));
    if Carried(s, w) && w != s.carriers[job].value {
      var j :| j in s.carriers && s.carriers[j] == Some(w);
      assert j in t.carriers && t.carriers[j] == Some(w);
    }
  }

  lemma PickOnePlace(s: State, job: Job)
    requires OnePlace(s) && Enabled(s, Pick(job))
    ensures OnePlace(Apply(s, Pick(job)))
  {
    var t := Apply(s, Pick(job));
    forall w ensures Carried(t, w) <==> Carried(s, w) || w == s.pool[0] { PickCarries(s, job, w); }
    hide Carried;
    assert s.pool == [s.pool[0]] + t.pool;
  }

  lemma HandOnePlace(s: State, job: Job)
    requires OnePlace(s) && Enabled(s, Hand(job))
    ensures OnePlace(Apply(s, Hand(job)))
  {
    var t := Apply(s, Hand(job));
    forall w ensures Carried(t, w) <==> Carried(s, w) && w != s.carriers[job].value { HandCarries(s, job, w); }
    hide Carried;
  }

  lemma OnePlaceStep(s: State, e: Event)
    requires OnePlace(s) && JobsOnce(s) && Enabled(s, e)
    ensures OnePlace(Apply(s, e))
  {
    if e.Pick? {
      PickOnePlace(s, e.job);
    } else if e.Hand? {
      HandOnePlace(s, e.job);
    } else if e.Submit? {
      forall w ensures Carried(Apply(s, e), w) <==> Carried(s, w) { SubmitCarries(s, e.job, w); }
      hide JobsOnce, Carried;
    } else {
      SameCarried(s, Apply(s, e));
      hide JobsOnce, Carried;
    }
  }

  lemma OfferedIdleStep(s: State, e: Event)
    requires OnePlace(s) && RunningOwned(s) && JobsOnce(s) && OfferedIdle(s) && Enabled(s, e)
    ensures OfferedIdle(Apply(s, e))
  {
    var t := Apply(s, e);
    forall w | w in t.running ensures w !in t.pool && !Carried(t, w) {
      if e.Pick? {
        PickCarries(s, e.job, w);
      } else if e.Hand? {
        HandCarries(s, e.job, w);
      } else if e.Submit? {
        SubmitCarries(s, e.job, w);
      } else {
        SameCarried(s, t);
      }
      hide Carried, JobsOnce;
    }
  }

  lemma RunningOwnedStep(s: State, e: Event)
    requires RunningOwned(s) && JobsOnce(s) && Enabled(s, e)
    ensures RunningOwned(Apply(s, e))
  {
    hide Carried, Runs;
  }

  lemma RunsStays(s: State, e: Event, job: Job)
    requires RunningOwned(s) && Enabled(s, e) && Runs(s, job)
    ensures Runs(Apply(s, e), job) || (e.Return? && job in Apply(s, e).returned)
  {
    var w :| w in s.running && s.running[w] == job;
    var t := Apply(s, e);
    if !e.Return? || w != e.w {
      assert w in t.running && t.running[w] == job;
    }
  }

  lemma SubmitJobs(s: State, job: Job)
    requires RunningOwned(s) && JobsOnce(s) && Enabled(s, Submit(job))
    ensures JobsOnce(Apply(s, Submit(job)))
  {
    var t := Apply(s, Submit(job));
    forall j | j in s.started && j !in s.returned ensures Runs(t, j) {
      RunsStays(s, Submit(job), j);
    }
    hide Runs;
  }

  lemma HandJobs(s: State, job: Job)
    requires RunningOwned(s) && JobsOnce(s) && Enabled(s, Hand(job))
    ensures JobsOnce(Apply(s, Hand(job)))
  {
    var t := Apply(s, Hand(job));
    assert t.running[s.carriers[job].value] == job;
    forall j | j in s.started && j !in s.returned ensures Runs(t, j) {
      RunsStays(s, Hand(job), j);
    }
    hide Runs;
  }

  lemma ReturnJobs(s: State, w: nat)
    requires RunningOwned(s) && JobsOnce(s) && Enabled(s, Return(w))
    ensures JobsOnce(Apply(s, Return(w)))
  {
    var t := Apply(s, Return(w));
    forall j | j in s.started && j !in s.returned ensures j in t.returned || Runs(t, j) {
      RunsStays(s, Return(w), j);
    }
    hide Runs;
  }

  /** The other events change no job's account. */
  lemma OtherJobs(s: State, e: Event)
    requires JobsOnce(s) && Enabled(s, e) && !e.Submit? && !e.Hand? && !e.Return?
    ensures JobsOnce(Apply(s, e))
  {
    match e {
      case StartWorker(_) => case Offer(_) => case Pick(_) => case Again(_) => case Stop(_) =>
    }
  }

  lemma JobsOnceStep(s: State, e: Event)
    requires RunningOwned(s) && JobsOnce(s) && Enabled(s, e)
    ensures JobsOnce(Apply(s, e))
  {
    hide Enabled, Apply, JobsOnce, RunningOwned;
    if e.Submit? {
      SubmitJobs(s, e.job);
    } else if e.Hand? {
      HandJobs(s, e.job);
    } else if e.Return? {
      ReturnJobs(s, e.w);
    } else {
      OtherJobs(s, e);
    }
  }

  lemma StepKeepsInv(s: State, e: Event)
    requires Inv(s) && Enabled(s, e)
    ensures Inv(Apply(s, e))
  {
    hide OnePlace, RunningOwned, OfferedIdle, JobsOnce, Enabled, Apply;
    OnePlaceStep(s, e);
    RunningOwnedStep(s, e);
    OfferedIdleStep(s, e);
    JobsOnceStep(s, e);
  }

  // ---- what it means -----------------------------------------------------------------------

  function Upto(n: nat): (r: set<nat>)
    ensures |r| == n
    ensures forall x :: x in r <==> 0 <= x < n
  {
    if n == 0 then {} else Upto(n - 1) + {n - 1}
  }

  lemma {:induction false} DistinctWithin(p: seq<nat>, bound: set<nat>)
    requires forall i :: 0 <= i < |p| ==> p[i] in bound
    requires forall i, k :: 0 <= i < k < |p| ==> p[i] != p[k]
    ensures |p| <= |bound|
  {
    if p != [] {
      var last := p[|p| - 1];
      DistinctWithin(p[..|p| - 1], bound - {last});
    }
  }

  lemma {:induction false} SubsetSize<T>(a: set<T>, b: set<T>)
    requires a <= b
    ensures |a| <= |b|
  {
    if a != {} {
      var x :| x in a;
      SubsetSize(a - {x}, b - {x});
    }
  }

  /** A worker about to offer itself finds room in the pool. */
  lemma OfferNeverBlocks(s: State, w: nat)
    requires Inv(s) && w < |s.workers| && s.workers[w].Offering?
    ensures Enabled(s, Offer(w))
  {
    DistinctWithin(s.pool, Upto(|s.workers|) - {w});
  }

  lemma HandIsFresh(s: State, job: Job)
    requires Inv(s) && Enabled(s, Hand(job))
    ensures job !in s.started && s.carriers[job].value !in s.running
  {
  }

  // ---- whole runs --------------------------------------------------------------------------

  ghost predicate IsRun(states: seq<State>, events: seq<Event>) {
    && |states| == |events| + 1
    && states[0] == Init(|states[0].workers|)
    && forall i :: 0 <= i < |events| ==> Enabled(states[i], events[i]) && states[i + 1] == Apply(states[i], events[i])
  }

  lemma {:induction false} RunKeepsInv(states: seq<State>, events: seq<Event>)
    requires IsRun(states, events)
    ensures forall i :: 0 <= i < |states| ==> Inv(states[i])
  {
    hide Enabled, Apply, Inv;
    if events == [] {
      InitKeepsInv(|states[0].workers|);
    } else {
      var n := |events| - 1;
      RunKeepsInv(states[..n + 1], events[..n]);
      assert states[..n + 1][n] == states[n];
      StepKeepsInv(states[n], events[n]);
    }
  }

  /** The actions that have been started and have not returned. */
  ghost function Unreturned(s: State): set<Job> {
    set j | j in s.started && j !in s.returned
  }

  lemma UnreturnedRun(s: State)
    requires Inv(s)
    ensures Unreturned(s) == s.running.Values
    ensures |s.running.Keys| <= |s.workers|
  {
    hide OnePlace, OfferedIdle;
    SubsetSize(s.running.Keys, Upto(|s.workers|));
  }

  lemma {:induction false} ValuesBounded<K, V>(m: map<K, V>)
    ensures |m.Values| <= |m.Keys|
  {
    if m.Keys != {} {
      var k :| k in m;
      var rest := m - {k};
      ValuesBounded(rest);
      assert rest.Keys == m.Keys - {k};
      forall v | v in m.Values && v != m[k] ensures v in rest.Values {
        var l :| l in m && m[l] == v;
        assert l in rest;
      }
      SubsetSize(m.Values - {m[k]}, rest.Values);
    } else {
      assert m.Values == {};
    }
  }

  lemma StepWorkers(s: State, e: Event)
    requires Enabled(s, e)
    ensures |Apply(s, e).workers| == |s.workers|
  {
  }

  lemma {:induction false} WorkersStay(states: seq<State>, events: seq<Event>, i: nat)
    requires IsRun(states, events) && i < |states|
    ensures |states[i].workers| == |states[0].workers|
  {
    hide Enabled, Apply;
    if i > 0 {
      WorkersStay(states, events, i - 1);
      assert Enabled(states[i - 1], events[i - 1]);
      StepWorkers(states[i - 1], events[i - 1]);
    }
  }

  /** At every point of every run, the actions started and not yet returned are at most as many
      as the workers the queue was made with. */
  lemma RunningBounded(states: seq<State>, events: seq<Event>, i: nat)
    requires IsRun(states, events) && i < |states|
    ensures |Unreturned(states[i])| <= |states[0].workers|
  {
    hide Enabled, Apply, IsRun, Inv, Unreturned;
    RunKeepsInv(states, events);
    WorkersStay(states, events, i);
    UnreturnedRun(states[i]);
    ValuesBounded(states[i].running);
  }

  /** At every point of every run no two goroutines hold the same channel, and none holds one
      that is in the pool. */
  lemma OneHolder(states: seq<State>, events: seq<Event>, i: nat, j: Job, k: Job)
    requires IsRun(states, events) && i < |states|
    requires var s := states[i]; j in s.carriers && k in s.carriers && s.carriers[j].Some? && s.carriers[j] == s.carriers[k]
    ensures j == k && states[i].carriers[j].value !in states[i].pool
  {
    hide Enabled, Apply, IsRun, RunningOwned, OfferedIdle, JobsOnce;
    RunKeepsInv(states, events);
  }

  /** Whenever a job is handed over, its worker has nothing running. */
  lemma HandedToIdle(states: seq<State>, events: seq<Event>, k: nat)
    requires IsRun(states, events) && k < |events| && events[k].Hand?
    ensures events[k].job in states[k].carriers && states[k].carriers[events[k].job].Some?
    ensures states[k].carriers[events[k].job].value !in states[k].running
  {
    hide Apply, Inv;
    RunKeepsInv(states, events);
    HandIsFresh(states[k], events[k].job);
  }

  lemma RunsOn(s: State, e: Event, w: nat)
    requires OnePlace(s) && OfferedIdle(s) && Enabled(s, e) && w in s.running && e != Return(w)
    ensures w in Apply(s, e).running && Apply(s, e).running[w] == s.running[w]
  {
    hide OnePlace;
  }

  lemma {:induction false} RunsUntilReturn(states: seq<State>, events: seq<Event>, i: nat, k: nat, w: nat)
    requires IsRun(states, events) && i <= k < |states| && w in states[i].running
    requires forall j :: i <= j < k ==> events[j] != Return(w)
    ensures w in states[k].running && states[k].running[w] == states[i].running[w]
    decreases k
  {
    hide Enabled, Apply, OnePlace, OfferedIdle, RunningOwned, JobsOnce;
    if i < k {
      RunsUntilReturn(states, events, i, k - 1, w);
      RunKeepsInv(states, events);
      RunsOn(states[k - 1], events[k - 1], w);
    }
  }

  lemma HandRuns(s: State, job: Job)
    requires Enabled(s, Hand(job))
    ensures job in s.carriers && s.carriers[job].Some? && s.carriers[job].value in Apply(s, Hand(job)).running
  {
  }

  lemma OfferingIsIdle(s: State, w: nat)
    requires Inv(s) && Enabled(s, Offer(w))
    ensures w !in s.running
  {
    hide OnePlace, OfferedIdle, JobsOnce;
  }

  /** Between a job being handed to a worker and that worker offering itself again, the action
      of the job has returned. */
  lemma OfferedAfterReturn(states: seq<State>, events: seq<Event>, i: nat, k: nat)
    requires IsRun(states, events) && i < k < |events| && events[i].Hand? && events[k].Offer?
    requires events[i].job in states[i].carriers && states[i].carriers[events[i].job] == Some(events[k].w)
    ensures exists j :: i < j < k && events[j] == Return(events[k].w)
  {
    hide Enabled, Apply, Inv;
    var w := events[k].w;
    RunKeepsInv(states, events);
    HandRuns(states[i], events[i].job);
    OfferingIsIdle(states[k], w);
    if forall j :: i < j < k ==> events[j] != Return(w) {
      RunsUntilReturn(states, events, i + 1, k, w);
    }
  }

  lemma StartedGrows(s: State, e: Event)
    requires Enabled(s, e)
    ensures Apply(s, e).started == if e.Hand? then s.started + [e.job] else s.started
  {
  }

  /** Over a whole run, a job is handed to a worker at most once. */
  lemma {:induction false} StartedAtMostOnce(states: seq<State>, events: seq<Event>, i: nat, k: nat)
    requires IsRun(states, events) && i < k < |events| && events[i].Hand? && events[k].Hand?
    ensures events[i].job != events[k].job
  {
    RunKeepsInv(states, events);
    hide Enabled, Apply, Inv;
    StartedGrows(states[i], events[i]);
    assert events[i].job in states[i + 1].started;
    StartedKeeps(states, events, i + 1, k, events[i].job);
    HandIsFresh(states[k], events[k].job);
  }

  lemma {:induction false} StartedKeeps(states: seq<State>, events: seq<Event>, i: nat, k: nat, job: Job)
    requires IsRun(states, events) && i <= k < |states| && job in states[i].started
    ensures job in states[k].started
    decreases k
  {
    hide Enabled, Apply;
    if i < k {
      StartedKeeps(states, events, i, k - 1, job);
      StartedGrows(states[k - 1], events[k - 1]);
    }
  }

  // ---- every job is carried until it is handed over, told from the events ---------------------

  lemma JobStep(s: State, e: Event, j: Job)
    requires JobsOnce(s) && Enabled(s, e)
    ensures j in Apply(s, e).carriers <==> (j in s.carriers || e == Submit(j)) && e != Hand(j)
    ensures j in Apply(s, e).started <==> j in s.started || e == Hand(j)
    ensures j in Apply(s, e).submitted <==> j in s.submitted || e == Submit(j)
  {
    match e {
      case StartWorker(_) => case Submit(_) => case Offer(_) => case Pick(_) => case Hand(_) =>
      case Return(_) => case Again(_) => case Stop(_) =>
    }
  }

  lemma HandedIsSubmitted(s: State, j: Job)
    requires JobsOnce(s)
    ensures j in s.carriers ==> j in s.submitted && j !in s.started
    ensures j in s.started ==> j in s.submitted
  {
  }

  /** No job is lost: at every point of every run a goroutine carries a job exactly if it has
      been submitted and not yet handed to a worker, and a job has been started exactly if it
      has been handed over. */
  lemma {:induction false} CarriedIff(states: seq<State>, events: seq<Event>, k: nat, j: Job)
    requires IsRun(states, events) && k < |states|
    ensures j in states[k].carriers <==> Submit(j) in events[..k] && Hand(j) !in events[..k]
    ensures j in states[k].started <==> Hand(j) in events[..k]
    ensures j in states[k].submitted <==> Submit(j) in events[..k]
  {
    hide Enabled, Apply, OnePlace, RunningOwned, OfferedIdle, JobsOnce;
    if k > 0 {
      CarriedIff(states, events, k - 1, j);
      RunKeepsInv(states, events);
      JobStep(states[k - 1], events[k - 1], j);
      HandedIsSubmitted(states[k - 1], j);
      HandedIsSubmitted(states[k], j);
      assert events[..k] == events[..k - 1] + [events[k - 1]];
    }
  }

  /** A carried job goes on: without a channel it takes one as soon as the pool has any; with
      one it is handed over unless the worker has quit. */
  lemma CarriedGoesOn(s: State, j: Job)
    requires Inv(s) && j in s.carriers
    ensures s.carriers[j].None? ==> (Enabled(s, Pick(j)) <==> s.pool != [])
    ensures s.carriers[j].Some? ==>
      s.carriers[j].value < |s.workers| && (Enabled(s, Hand(j)) <==> !s.workers[s.carriers[j].value].Quit?)
  {
    hide RunningOwned, OfferedIdle, JobsOnce;
    if s.carriers[j].Some? {
      assert Carried(s, s.carriers[j].value);
    }
  }

  // ---- which worker gets which job -------------------------------------------------------------

  /** The workers in the order they offered themselves, and the jobs in the order they took a
      channel. */
  function Offers(events: seq<Event>): seq<nat> {
    if events == [] then []
    else
      var e := events[|events| - 1];
      Offers(events[..|events| - 1]) + if e.Offer? then [e.w] else []
  }

  function Picks(events: seq<Event>): seq<Job> {
    if events == [] then []
    else
      var e := events[|events| - 1];
      Picks(events[..|events| - 1]) + if e.Pick? then [e.job] else []
  }

  /** The pool is a queue: what is in it is what has been offered and not been taken, and the
      n-th job to take a channel took the n-th one offered. */
  ghost predicate Paired(s: State, offers: seq<nat>, picks: seq<Job>) {
    && |picks| <= |offers| && s.pool == offers[|picks|..]
    && (forall j :: j in picks ==> j in s.submitted)
    && (forall j :: j in s.carriers ==> (s.carriers[j].Some? <==> j in picks))
    && (forall n :: 0 <= n < |picks| && picks[n] in s.carriers ==> s.carriers[picks[n]] == Some(offers[n]))
  }

  lemma PairedStep(s: State, e: Event, offers: seq<nat>, picks: seq<Job>)
    requires JobsOnce(s) && Paired(s, offers, picks) && Enabled(s, e)
    ensures Paired(Apply(s, e), offers + if e.Offer? then [e.w] else [], picks + if e.Pick? then [e.job] else [])
  {
    if e.Pick? {
      PairedPick(s, e.job, offers, picks);
    } else {
      hide Runs;
      match e {
        case StartWorker(_) => case Submit(_) => case Offer(_) => case Hand(_) => case Return(_) => case Again(_) => case Stop(_) =>
      }
    }
  }

  lemma PairedPick(s: State, j: Job, offers: seq<nat>, picks: seq<Job>)
    requires JobsOnce(s) && Paired(s, offers, picks) && Enabled(s, Pick(j))
    ensures Paired(Apply(s, Pick(j)), offers, picks + [j])
  {
    hide Runs;
    assert j !in picks;
    assert s.pool[0] == offers[|picks|];
    assert offers[|picks| + 1..] == s.pool[1..];
  }

  lemma {:induction false} PoolIsQueue(states: seq<State>, events: seq<Event>, k: nat)
    requires IsRun(states, events) && k < |states|
    ensures Paired(states[k], Offers(events[..k]), Picks(events[..k]))
  {
    hide Enabled, Apply, OnePlace, RunningOwned, OfferedIdle, JobsOnce;
    if k > 0 {
      PoolIsQueue(states, events, k - 1);
      RunKeepsInv(states, events);
      hide Paired;
      assert events[..k][..k - 1] == events[..k - 1];
      PairedStep(states[k - 1], events[k - 1], Offers(events[..k - 1]), Picks(events[..k - 1]));
    }
  }

  lemma HandStarts(s: State, j: Job)
    requires Enabled(s, Hand(j))
    ensures
      var w, t := s.carriers[j].value, Apply(s, Hand(j));
      t.workers == s.workers[w := Busy(j)] && t.running == s.running[w := j]
  {
  }

  /** The n-th job to take a channel is handed to the n-th worker to offer itself, and runs
      there until that worker's action returns. */
  lemma HandedToOfferer(states: seq<State>, events: seq<Event>, n: nat, i: nat, k: nat)
    requires IsRun(states, events) && i < k < |states|
    requires n < |Picks(events[..i])| && events[i] == Hand(Picks(events[..i])[n])
    ensures n < |Offers(events[..i])|
    ensures
      var w, j := Offers(events[..i])[n], Picks(events[..i])[n];
      && (i < |events| - 1 ==> w < |states[i + 1].workers| && states[i + 1].workers[w] == Busy(j))
      && ((forall l :: i < l < k ==> events[l] != Return(w)) ==> w in states[k].running && states[k].running[w] == j)
  {
    PoolIsQueue(states, events, i);
    hide Apply, Inv;
    HandStarts(states[i], events[i].job);
    var w := Offers(events[..i])[n];
    if forall l :: i < l < k ==> events[l] != Return(w) {
      RunsUntilReturn(states, events, i + 1, k, w);
    }
  }

  lemma ReturnStep(s: State, e: Event)
    requires Enabled(s, e)
    ensures Apply(s, e).returned == s.returned + if e.Return? then {s.running[e.w]} else {}
  {
  }

  /** A job whose action was started returns when its worker's action next returns. */
  lemma ReturnedThen(states: seq<State>, events: seq<Event>, i: nat, k: nat, w: nat, j: Job)
    requires IsRun(states, events) && i < k < |events| && events[i] == Hand(j) && events[k] == Return(w)
    requires j in states[i].carriers && states[i].carriers[j] == Some(w)
    requires forall l :: i < l < k ==> events[l] != Return(w)
    ensures states[k + 1].returned == states[k].returned + {j}
  {
    hide Apply, Inv;
    HandStarts(states[i], j);
    RunsUntilReturn(states, events, i + 1, k, w);
    ReturnStep(states[k], events[k]);
  }

  // ---- jobs get done ------------------------------------------------------------------------------

  /** How many steps each worker, each job and each running action can still take. */
  function WorkerSteps(w: Worker): nat {
    match w
    case Unstarted => 3
    case Offering => 2
    case Waiting => 1
    case Busy(_) => 3
    case Quit => 0
  }

  function WorkersSteps(ws: seq<Worker>): nat {
    if ws == [] then 0 else WorkersSteps(ws[..|ws| - 1]) + WorkerSteps(ws[|ws| - 1])
  }

  function WithoutChannel(s: State): set<Job> {
    set j | j in s.carriers && s.carriers[j].None?
  }

  function Steps(s: State): nat {
    WorkersSteps(s.workers) + 4 * |s.carriers| + |WithoutChannel(s)| + |s.running|
  }

  lemma {:induction false} OneWorkerSteps(ws: seq<Worker>, w: nat, x: Worker)
    requires w < |ws|
    ensures WorkersSteps(ws[w := x]) == WorkersSteps(ws) - WorkerSteps(ws[w]) + WorkerSteps(x)
  {
    var n := |ws| - 1;
    if w < n {
      OneWorkerSteps(ws[..n], w, x);
      assert ws[w := x][..n] == ws[..n][w := x];
    } else {
      assert ws[w := x][..n] == ws[..n];
    }
  }

  lemma WorkerOnly(s: State, e: Event)
    requires OnePlace(s) && Enabled(s, e) && (e.StartWorker? || e.Offer? || e.Again? || e.Stop?)
    ensures Steps(Apply(s, e)) < Steps(s)
  {
    hide OnePlace, WorkersSteps;
    var x := if e.StartWorker? || e.Again? then Offering else if e.Offer? then Waiting else Quit;
    OneWorkerSteps(s.workers, e.w, x);
    assert WithoutChannel(Apply(s, e)) == WithoutChannel(s);
  }

  lemma PickStep(s: State, j: Job)
    requires Enabled(s, Pick(j))
    ensures Steps(Apply(s, Pick(j))) < Steps(s)
  {
    var t := Apply(s, Pick(j));
    assert WithoutChannel(t) == WithoutChannel(s) - {j};
    assert j in WithoutChannel(s);
    assert t.carriers.Keys == s.carriers.Keys;
    assert |t.carriers| == |t.carriers.Keys| == |s.carriers|;
  }

  lemma HandStep(s: State, j: Job)
    requires OfferedIdle(s) && Enabled(s, Hand(j))
    ensures Steps(Apply(s, Hand(j))) < Steps(s)
  {
    hide WorkersSteps;
    var t, w := Apply(s, Hand(j)), s.carriers[j].value;
    OneWorkerSteps(s.workers, w, Busy(j));
    assert WithoutChannel(t) == WithoutChannel(s);
    assert t.carriers.Keys == s.carriers.Keys - {j};
    assert |t.carriers| == |t.carriers.Keys| && |s.carriers| == |s.carriers.Keys|;
    assert Carried(s, w);
    assert t.running.Keys == s.running.Keys + {w};
    assert |t.running| == |t.running.Keys| && |s.running| == |s.running.Keys|;
  }

  lemma ReturnSteps(s: State, w: nat)
    requires Enabled(s, Return(w))
    ensures Steps(Apply(s, Return(w))) < Steps(s)
  {
    hide WorkersSteps;
    var t := Apply(s, Return(w));
    assert WithoutChannel(t) == WithoutChannel(s);
    assert t.running.Keys == s.running.Keys - {w};
    assert |t.running| == |t.running.Keys| && |s.running| == |s.running.Keys|;
  }

  lemma SubmitSteps(s: State, j: Job)
    requires JobsOnce(s) && Enabled(s, Submit(j))
    ensures Steps(Apply(s, Submit(j))) == Steps(s) + 5
  {
    hide WorkersSteps, WithoutChannel, JobsOnce;
    var t := Apply(s, Submit(j));
    SubmitIsNew(s, j);
    assert t.carriers.Keys == s.carriers.Keys + {j};
    assert |t.carriers| == |t.carriers.Keys| && |s.carriers| == |s.carriers.Keys|;
  }

  lemma SubmitIsNew(s: State, j: Job)
    requires JobsOnce(s) && Enabled(s, Submit(j))
    ensures j !in s.carriers && j !in WithoutChannel(s)
    ensures WithoutChannel(Apply(s, Submit(j))) == WithoutChannel(s) + {j}
  {
    hide Runs;
  }

  /** Every event but a new job uses up a step. */
  lemma StepsFall(s: State, e: Event)
    requires Inv(s) && Enabled(s, e)
    ensures if e.Submit? then Steps(Apply(s, e)) == Steps(s) + 5 else Steps(Apply(s, e)) < Steps(s)
  {
    hide Enabled, Apply, Steps, OnePlace, RunningOwned, OfferedIdle, JobsOnce;
    match e
    case Submit(j) => SubmitSteps(s, j);
    case Pick(j) => PickStep(s, j);
    case Hand(j) => HandStep(s, j);
    case Return(w) => ReturnSteps(s, w);
    case StartWorker(_) => WorkerOnly(s, e);
    case Offer(_) => WorkerOnly(s, e);
    case Again(_) => WorkerOnly(s, e);
    case Stop(_) => WorkerOnly(s, e);
  }

  function Submits(events: seq<Event>): nat {
    if events == [] then 0
    else Submits(events[..|events| - 1]) + if events[|events| - 1].Submit? then 1 else 0
  }

  lemma {:induction false} FreshSteps(n: nat)
    ensures WorkersSteps(seq(n, _ => Unstarted)) == 3 * n
  {
    if n > 0 {
      FreshSteps(n - 1);
      assert seq(n, _ => Unstarted)[..n - 1] == seq(n - 1, _ => Unstarted);
    }
  }

  /** A run is over after three steps for each worker and six for each job: nothing goes round
      for ever. */
  lemma {:induction false} RunsEnd(states: seq<State>, events: seq<Event>)
    requires IsRun(states, events)
    ensures |events| + Steps(states[|events|]) <= 3 * |states[0].workers| + 6 * Submits(events)
  {
    hide Enabled, Apply, Inv;
    if events == [] {
      FreshSteps(|states[0].workers|);
      assert WithoutChannel(states[0]) == {};
    } else {
      hide Steps;
      var n := |events| - 1;
      RunsEnd(states[..n + 1], events[..n]);
      assert states[..n + 1][n] == states[n] && states[..n + 1][0] == states[0];
      RunKeepsInv(states, events);
      StepsFall(states[n], events[n]);
    }
  }

  /** Nothing can happen but a new job or a worker quitting. */
  ghost predicate AtRest(s: State) {
    forall e :: Enabled(s, e) ==> e.Submit? || e.Stop?
  }

  /** When nothing more can happen, every job that was submitted has been started and its
      action has returned, but for those that hold the channel of a worker that has quit, and
      those for which there is no worker left. */
  lemma RestMeansDone(s: State, j: Job)
    requires Inv(s) && AtRest(s) && j in s.submitted
    ensures j in s.started ==> j in s.returned
    ensures j !in s.started ==> j in s.carriers
    ensures j !in s.started && s.carriers[j].Some? ==> s.carriers[j].value < |s.workers| && s.workers[s.carriers[j].value].Quit?
    ensures j !in s.started && s.carriers[j].None? ==> forall w :: 0 <= w < |s.workers| ==> s.workers[w].Quit?
  {
    hide Enabled, OnePlace, OfferedIdle, RunningOwned;
    RestingJobs(s, j);
    if j in s.carriers {
      CarriedGoesOn(s, j);
      assert !Enabled(s, Hand(j));
      assert !Enabled(s, Pick(j));
      if s.carriers[j].None? {
        forall w | 0 <= w < |s.workers| ensures s.workers[w].Quit? {
          RestingWorker(s, w);
        }
      }
    }
  }

  lemma RestingJobs(s: State, j: Job)
    requires JobsOnce(s) && AtRest(s) && j in s.submitted
    ensures j in s.started ==> j in s.returned
    ensures j !in s.started ==> j in s.carriers
  {
    if j in s.started && j !in s.returned {
      var w :| w in s.running && s.running[w] == j;
      assert Enabled(s, Return(w));
    }
  }

  lemma RestingWorker(s: State, w: nat)
    requires Inv(s) && AtRest(s) && s.pool == [] && w < |s.workers|
    ensures s.workers[w].Quit?
  {
    hide Inv, Enabled;
    if !s.workers[w].Quit? {
      var e := WorkerMoves(s, w);
    }
  }

  /** With nothing in the pool, a worker that has not quit has something to do, or a job that
      holds its channel has. */
  lemma WorkerMoves(s: State, w: nat) returns (e: Event)
    requires Inv(s) && s.pool == [] && w < |s.workers| && !s.workers[w].Quit?
    ensures Enabled(s, e) && !e.Submit? && !e.Stop?
  {
    hide JobsOnce, RunningOwned, OfferedIdle;
    match s.workers[w]
    case Unstarted => e := StartWorker(w);
    case Offering => e := Offer(w);
      OfferNeverBlocks(s, w);
    case Busy(_) => e := if w in s.running then Return(w) else Again(w);
    case Waiting =>
      assert Carried(s, w);
      var j :| j in s.carriers && s.carriers[j] == Some(w);
      e := Hand(j);
  }

  lemma QuitStep(s: State, e: Event, w: nat)
    requires Enabled(s, e) && w < |s.workers|
    ensures Apply(s, e).workers[w].Quit? <==> s.workers[w].Quit? || e == Stop(w)
  {
  }

  /** If no worker has been told to quit and there is one, then when nothing more can happen
      every job that was submitted has been done. */
  lemma AllJobsDone(states: seq<State>, events: seq<Event>, j: Job)
    requires IsRun(states, events) && AtRest(states[|events|]) && states[0].workers != []
    requires forall i :: 0 <= i < |events| ==> !events[i].Stop?
    requires Submit(j) in events
    ensures Hand(j) in events && j in states[|events|].returned
  {
    hide Enabled, Apply, Inv, AtRest;
    var n := |events|;
    RunKeepsInv(states, events);
    assert events[..n] == events;
    CarriedIff(states, events, n, j);
    RestMeansDone(states[n], j);
    WorkersStay(states, events, n);
    if j !in states[n].started {
      if states[n].carriers[j].Some? {
        NobodyQuits(states, events, n, states[n].carriers[j].value);
      } else {
        NobodyQuits(states, events, n, 0);
      }
    }
  }

  lemma {:induction false} NobodyQuits(states: seq<State>, events: seq<Event>, k: nat, w: nat)
    requires IsRun(states, events) && k < |states| && w < |states[k].workers|
    requires forall i :: 0 <= i < k ==> !events[i].Stop?
    ensures !states[k].workers[w].Quit?
  {
    hide Enabled, Apply;
    if k > 0 {
      assert Enabled(states[k - 1], events[k - 1]);
      StepWorkers(states[k - 1], events[k - 1]);
      NobodyQuits(states, events, k - 1, w);
      QuitStep(states[k - 1], events[k - 1], w);
    }
  }

  lemma StrandedStep(s: State, e: Event, j: Job, w: nat)
    requires Enabled(s, e) && JobsOnce(s)
    requires j in s.carriers && s.carriers[j] == Some(w) && w < |s.workers| && s.workers[w].Quit?
    ensures j in Apply(s, e).carriers && Apply(s, e).carriers[j] == Some(w)
    ensures w < |Apply(s, e).workers| && Apply(s, e).workers[w].Quit?
  {
    hide Runs;
  }

  /** A job that holds the channel of a worker that has quit is never started. */
  lemma {:induction false} StrandedForGood(states: seq<State>, events: seq<Event>, i: nat, k: nat, j: Job, w: nat)
    requires IsRun(states, events) && i <= k < |states|
    requires j in states[i].carriers && states[i].carriers[j] == Some(w) && w < |states[i].workers| && states[i].workers[w].Quit?
    ensures j in states[k].carriers && states[k].carriers[j] == Some(w) && j !in states[k].started
    ensures w < |states[k].workers| && states[k].workers[w].Quit?
    decreases k
  {
    hide Enabled, Apply, OnePlace, RunningOwned, OfferedIdle, JobsOnce;
    RunKeepsInv(states, events);
    HandedIsSubmitted(states[k], j);
    if i < k {
      StrandedForGood(states, events, i, k - 1, j, w);
      StrandedStep(states[k - 1], events[k - 1], j, w);
    }
  }

  /** It happens: the worker quits between the job taking its channel and sending on it. */
  lemma JobIsStranded(j: Job) returns (states: seq<State>, events: seq<Event>)
    ensures IsRun(states, events) && events == [StartWorker(0), StartWorker(1), Offer(0), Submit(j), Pick(j), Stop(0)]
    ensures var s := states[|events|]; j in s.carriers && s.carriers[j] == Some(0) && s.workers == [Quit, Offering]
  {
    events := [StartWorker(0), StartWorker(1), Offer(0), Submit(j), Pick(j), Stop(0)];
    var s0 := Init(2);
    var s1 := Apply(s0, events[0]);
    var s2 := Apply(s1, events[1]);
    var s3 := Apply(s2, events[2]);
    var s4 := Apply(s3, events[3]);
    var s5 := Apply(s4, events[4]);
    states := [s0, s1, s2, s3, s4, s5, Apply(s5, events[5])];
  }

  // ---- the object --------------------------------------------------------------------------

  class Dispatcher {
    const workers: array<Worker>
    var pool: seq<nat>
    var carriers: map<Job, Option<nat>>
    var running: map<nat, Job>
    ghost var submitted: set<Job>
    ghost var started: seq<Job>
    ghost var returned: set<Job>

    ghost function Abs(): State
      reads this, workers
    {
      State(workers[..], pool, carriers, running, submitted, started, returned)
    }

    ghost predicate Valid()
      reads this, workers
    {
      Inv(Abs())
    }

    /** createDispatcher: a negative count means the default. */
    constructor (maxWorkers: int)
      ensures Valid() && Abs() == Init(if maxWorkers < 0 then MAX_WORKER else maxWorkers)
      ensures fresh(workers)
    {
      var n: nat := if maxWorkers < 0 then MAX_WORKER else maxWorkers;
      workers := new Worker[n](_ => Unstarted);
      pool, carriers, running := [], map[], map[];
      submitted, started, returned := {}, [], {};
      new;
      assert workers[..] == Init(n).workers;
      InitKeepsInv(n);
    }

    /** Start fills in the workers and sets each going. */
    method Start()
      requires Valid() && Abs() == Init(workers.Length)
      modifies workers
      ensures Valid()
      ensures forall w :: 0 <= w < workers.Length ==> workers[w] == Offering
    {
      for i := 0 to workers.Length
        invariant Valid()
        invariant forall w :: 0 <= w < workers.Length ==> workers[w] == if w < i then Offering else Unstarted
      {
        StepKeepsInv(Abs(), StartWorker(i));
        hide Inv;
        ghost var s := Abs();
        workers[i] := Offering;
        assert Abs() == Apply(s, StartWorker(i));
      }
    }

    /** One job received from the queue: a goroutine is spawned for it. */
    method Dispatch(job: Job)
      requires Valid() && job !in submitted
      modifies this
      ensures Valid() && Abs() == Apply(old(Abs()), Submit(job))
      ensures carriers == old(carriers)[job := None] && job !in old(carriers)
      ensures pool == old(pool) && running == old(running) && submitted == old(submitted) + {job}
    {
      StepKeepsInv(Abs(), Submit(job));
      hide Inv;
      carriers := carriers[job := None];
      submitted := submitted + {job};
    }

    /** That goroutine: jobChannel := <-pool. */
    method PickChannel(job: Job)
      requires Valid() && job in carriers && carriers[job].None? && pool != []
      modifies this
      ensures Valid() && Abs() == Apply(old(Abs()), Pick(job))
      ensures pool == old(pool)[1..] && carriers == old(carriers)[job := Some(old(pool)[0])] && running == old(running)
    {
      StepKeepsInv(Abs(), Pick(job));
      hide Inv;
      carriers, pool := carriers[job := Some(pool[0])], pool[1..];
    }

    /** jobChannel <- job meets the worker's receive; the worker runs the action in a
        goroutine of its own. */
    method HandOver(job: Job)
      requires Valid() && job in carriers && carriers[job].Some?
      requires carriers[job].value < workers.Length && workers[carriers[job].value].Waiting?
      modifies this, workers
      ensures Valid() && Abs() == Apply(old(Abs()), Hand(job))
      ensures
        var w := old(carriers)[job].value;
        && workers[..] == old(workers[..])[w := Busy(job)] && running == old(running)[w := job]
        && carriers == old(carriers) - {job} && started == old(started) + [job] && pool == old(pool)
    {
      StepKeepsInv(Abs(), Hand(job));
      hide Inv;
      var w := carriers[job].value;
      workers[w] := Busy(job);
      carriers := carriers - {job};
      running := running[w := job];
      started := started + [job];
    }

    /** The worker's loop head: it offers its channel, and there is room for it. */
    method OfferChannel(w: nat)
      requires Valid() && w < workers.Length && workers[w].Offering?
      modifies this, workers
      ensures Enabled(old(Abs()), Offer(w))
      ensures Valid() && Abs() == Apply(old(Abs()), Offer(w))
      ensures pool == old(pool) + [w] && workers[..] == old(workers[..])[w := Waiting]
      ensures carriers == old(carriers) && running == old(running)
    {
      OfferNeverBlocks(Abs(), w);
      StepKeepsInv(Abs(), Offer(w));
      hide Inv;
      pool := pool + [w];
      workers[w] := Waiting;
    }

    method ActionReturns(w: nat)
      requires Valid() && w in running
      modifies this
      ensures Valid() && Abs() == Apply(old(Abs()), Return(w))
      ensures running == old(running) - {w} && returned == old(returned) + {old(running)[w]}
      ensures carriers == old(carriers) && pool == old(pool)
    {
      StepKeepsInv(Abs(), Return(w));
      hide Inv;
      returned := returned + {running[w]};
      running := running - {w};
    }

    /** The worker's inner select: the context is done, or quit was received. */
    method WorkerGoesOn(w: nat, quit: bool)
      requires Valid() && w < workers.Length
      requires if quit then workers[w].Waiting? || workers[w].Busy? else workers[w].Busy? && w !in running
      modifies workers
      ensures Valid() && Abs() == Apply(old(Abs()), if quit then Stop(w) else Again(w))
      ensures workers[..] == old(workers[..])[w := if quit then Quit else Offering]
    {
      StepKeepsInv(Abs(), if quit then Stop(w) else Again(w));
      hide Inv;
      workers[w] := if quit then Quit else Offering;
    }
  }

  lemma InitKeepsInv(n: nat)
    ensures Inv(Init(n))
  {
  }
}

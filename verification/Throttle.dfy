/** The admission protocol of internal/backup/default_provider.go.

    tryLockBackup and tryLockRestore are the same protocol over separate counters, so one
    model serves both.  A call is split where it waits on the condition variable: Enter runs
    up to the wait or the decision, Resume goes on after a wake-up.  Everything else happens
    under the mutex, so each event below is atomic and any order of them is a run. */
module Throttle {

  type Caller = nat

  /** The two counters, and where the callers are: asleep in Wait, woken but not yet holding
      the mutex again, or admitted and not yet released. */
  datatype State = State(current: int, limit: int, asleep: set<Caller>, woken: set<Caller>, holding: set<Caller>)

  function Init(limit: int): State {
    State(0, limit, {}, {}, {})
  }

  /** expired: the caller's context is done.  refused: the job already exists (Enter only).
      storeFails: the pending record cannot be written, which is tried only before a wait. */
  datatype Event =
    | Enter(id: Caller, refused: bool, expired: bool, storeFails: bool)
    | Resume(id: Caller, expired: bool, storeFails: bool)
    | Unlock(id: Caller, wakes: Caller)
    | SetLimit(limit: int)

  function Known(s: State): set<Caller> {
    s.asleep + s.woken + s.holding
  }

  /** Signal wakes any one sleeper, and is lost when there is none. */
  predicate Enabled(s: State, e: Event) {
    match e
    case Enter(id, _, _, _) => id !in Known(s)
    case Resume(id, _, _) => id in s.woken
    case Unlock(id, wakes) => id in s.holding && (s.asleep != {} ==> wakes in s.asleep)
    case SetLimit(_) => true
  }

  /** The loop's test and what follows it, for a caller that has the mutex. */
  function Decide(s: State, id: Caller, expired: bool, storeFails: bool): State {
    if s.current >= s.limit && !expired then
      if storeFails then s else s.(asleep := s.asleep + {id})
    else if expired then s
    else s.(current := s.current + 1, holding := s.holding + {id})
  }

  function Apply(s: State, e: Event): State
    requires Enabled(s, e)
  {
    match e
    case Enter(id, refused, expired, storeFails) =>
      if refused then s else Decide(s, id, expired, storeFails)
    case Resume(id, expired, storeFails) =>
      Decide(s.(woken := s.woken - {id}), id, expired, storeFails)
    case Unlock(id, wakes) =>
      var t := s.(current := s.current - 1, holding := s.holding - {id});
      if s.asleep == {} then t else t.(asleep := s.asleep - {wakes}, woken := s.woken + {wakes})
    case SetLimit(limit) =>
      s.(limit := limit, asleep := {}, woken := s.woken + s.asleep)
  }

  // ---- slot safety --------------------------------------------------------------------

  ghost predicate Counted(s: State) {
    && s.current == |s.holding|
    && s.asleep !! s.woken && s.asleep !! s.holding && s.woken !! s.holding
  }

  lemma DecideCounted(s: State, id: Caller, expired: bool, storeFails: bool)
    requires Counted(s) && id !in Known(s)
    ensures Counted(Decide(s, id, expired, storeFails))
  {
  }

  /** The counter is the number of callers admitted and not released. */
  lemma CountedStep(s: State, e: Event)
    requires Counted(s) && Enabled(s, e)
    ensures Counted(Apply(s, e))
  {
  }

  /** The counter rises only by admitting one caller, and only from below the limit. */
  lemma RisesBelowLimit(s: State, e: Event)
    requires Counted(s) && Enabled(s, e)
    ensures Apply(s, e).current > s.current ==>
      && Apply(s, e).current == s.current + 1 <= s.limit == Apply(s, e).limit
      && |Apply(s, e).holding| == |s.holding| + 1
    ensures s.current >= s.limit ==> Apply(s, e).holding <= s.holding
    ensures !e.SetLimit? ==> Apply(s, e).limit == s.limit
  {
  }

  // ---- no lost wake-up ----------------------------------------------------------------

  function Free(s: State): int {
    if s.current < s.limit then s.limit - s.current else 0
  }

  /** While anyone sleeps, there are no more free slots than woken callers yet to run. */
  ghost predicate NoLostWakeup(s: State) {
    s.asleep != {} ==> Free(s) <= |s.woken|
  }

  /** A woken caller that finds its context expired leaves without taking the slot its
      wake-up announced. */
  predicate WastesWakeup(s: State, e: Event) {
    e.Resume? && e.expired && s.asleep != {} && e.id in s.woken && Free(s) == |s.woken|
  }

  /** Every event keeps the wake-up invariant but for exactly that one: barging arrivals,
      signals, renewed waits, changes of the limit and all other expiries included. */
  lemma WakeupStepIff(s: State, e: Event)
    requires Counted(s) && NoLostWakeup(s) && Enabled(s, e)
    ensures NoLostWakeup(Apply(s, e)) <==> !WastesWakeup(s, e)
  {
    match e
    case Enter(id, refused, expired, storeFails) =>
    case Resume(id, expired, storeFails) =>
      assert |s.woken - {id}| == |s.woken| - 1;
    case Unlock(id, wakes) =>
      if s.asleep != {} {
        assert |s.woken + {wakes}| == |s.woken| + 1;
      }
    case SetLimit(limit) =>
  }

  // ---- whole runs -----------------------------------------------------------------------

  ghost predicate IsRun(states: seq<State>, events: seq<Event>) {
    && |states| == |events| + 1
    && states[0] == Init(states[0].limit)
    && forall i :: 0 <= i < |events| ==> Enabled(states[i], events[i]) && states[i + 1] == Apply(states[i], events[i])
  }

  ghost predicate NobodyWaitingExpires(events: seq<Event>) {
    forall i :: 0 <= i < |events| ==> !(events[i].Resume? && events[i].expired)
  }

  lemma {:induction false} RunCounted(states: seq<State>, events: seq<Event>)
    requires IsRun(states, events)
    ensures forall i :: 0 <= i < |states| ==> Counted(states[i])
  {
    if events != [] {
      var n := |events| - 1;
      RunCounted(states[..n + 1], events[..n]);
      assert states[..n + 1][n] == states[n];
      CountedStep(states[n], events[n]);
    }
  }

  ghost predicate NeverLost(states: seq<State>) {
    forall i :: 0 <= i < |states| ==> NoLostWakeup(states[i])
  }

  ghost predicate NeverWasted(states: seq<State>, events: seq<Event>)
    requires |states| == |events| + 1
  {
    forall i :: 0 <= i < |events| ==> !WastesWakeup(states[i], events[i])
  }

  lemma NothingLostAtStart(limit: int)
    ensures NoLostWakeup(Init(limit))
  {
  }

  /** In any run the wake-up invariant holds at every point exactly when no step wastes a
      wake-up. */
  lemma {:induction false} RunNoLostWakeupIff(states: seq<State>, events: seq<Event>)
    requires IsRun(states, events)
    ensures NeverLost(states) <==> NeverWasted(states, events)
  {
    hide Enabled, Apply, NoLostWakeup, WastesWakeup, Counted, Init;
    if events == [] {
      NothingLostAtStart(states[0].limit);
    } else {
      var n := |events| - 1;
      var before, done := states[..n + 1], events[..n];
      assert states == before + [states[n + 1]] && events == done + [events[n]] && before[n] == states[n];
      RunNoLostWakeupIff(before, done);
      RunCounted(states, events);
      assert NeverLost(states) <==> NeverLost(before) && NoLostWakeup(states[n + 1]);
      assert NeverWasted(states, events) <==> NeverWasted(before, done) && !WastesWakeup(states[n], events[n]);
      if NeverLost(before) {
        WakeupStepIff(states[n], events[n]);
      }
    }
  }

  /** While no waiting request's context expires, at every point of every run a free slot and
      a sleeper mean that someone woken is on the way. */
  lemma RunNoLostWakeup(states: seq<State>, events: seq<Event>, i: nat)
    requires IsRun(states, events) && NobodyWaitingExpires(events) && i < |states|
    ensures NoLostWakeup(states[i])
    ensures states[i].asleep != {} && states[i].current < states[i].limit ==> states[i].woken != {}
  {
    RunNoLostWakeupIff(states, events);
  }

  predicate LimitFixed(events: seq<Event>) {
    forall i :: 0 <= i < |events| ==> !events[i].SetLimit?
  }

  /** With the limit fixed from some point on, the counter never rises above it: it is at most
      the limit, or has only fallen since.  From the start of a run with a non-negative limit
      it is therefore never above the limit. */
  lemma {:induction false} FixedLimitHolds(states: seq<State>, events: seq<Event>, lo: nat, hi: nat)
    requires IsRun(states, events) && lo <= hi < |states|
    requires forall i :: lo <= i < hi ==> !events[i].SetLimit?
    ensures states[hi].limit == states[lo].limit
    ensures states[hi].current <= states[hi].limit || states[hi].current <= states[lo].current
    decreases hi
  {
    hide Enabled, Apply, Counted, Init;
    if lo < hi {
      FixedLimitHolds(states, events, lo, hi - 1);
      RunCounted(states, events);
      RisesBelowLimit(states[hi - 1], events[hi - 1]);
    }
  }

  lemma NeverAboveLimit(states: seq<State>, events: seq<Event>, i: nat)
    requires IsRun(states, events) && LimitFixed(events) && i < |states|
    requires states[0].limit >= 0
    ensures |states[i].holding| == states[i].current <= states[0].limit
  {
    FixedLimitHolds(states, events, 0, i);
    RunCounted(states, events);
  }

  /** After the limit is lowered nobody is admitted until the counter is below the new one. */
  lemma LoweredLimitDrains(states: seq<State>, events: seq<Event>, lo: nat, hi: nat)
    requires IsRun(states, events) && lo <= hi < |states|
    requires forall i :: lo <= i < hi ==> !events[i].SetLimit?
    requires forall i :: lo <= i < hi ==> states[i].current >= states[i].limit
    ensures states[hi].current <= states[lo].current
    ensures states[hi].holding <= states[lo].holding
    decreases hi
  {
    hide Enabled, Apply, Counted, Init;
    if lo < hi {
      LoweredLimitDrains(states, events, lo, hi - 1);
      RunCounted(states, events);
      RisesBelowLimit(states[hi - 1], events[hi - 1]);
    }
  }

  // ---- what each call comes to, told from the events ------------------------------------------

  /** The limit after these events: that of the last change, or the first one. */
  function LastLimit(initial: int, events: seq<Event>): int {
    if events == [] then initial
    else
      var e := events[|events| - 1];
      if e.SetLimit? then e.limit else LastLimit(initial, events[..|events| - 1])
  }

  lemma LimitStep(s: State, e: Event)
    requires Enabled(s, e)
    ensures Apply(s, e).limit == if e.SetLimit? then e.limit else s.limit
  {
  }

  /** The limit in force is always the last one that was set. */
  lemma {:induction false} LimitIsLast(states: seq<State>, events: seq<Event>, k: nat)
    requires IsRun(states, events) && k < |states|
    ensures states[k].limit == LastLimit(states[0].limit, events[..k])
  {
    hide Enabled, Apply, Init;
    if k > 0 {
      LimitIsLast(states, events, k - 1);
      LimitStep(states[k - 1], events[k - 1]);
      assert events[..k][..k - 1] == events[..k - 1];
    }
  }

  lemma {:induction false} LastLimitHolds(initial: int, events: seq<Event>, lo: nat)
    requires lo < |events| && events[lo].SetLimit?
    requires forall i :: lo < i < |events| ==> !events[i].SetLimit?
    ensures LastLimit(initial, events) == events[lo].limit
    decreases |events|
  {
    if lo < |events| - 1 {
      LastLimitHolds(initial, events[..|events| - 1], lo);
    }
  }

  predicate Refused(e: Event) {
    e.Enter? && e.refused
  }

  /** A caller that has the mutex is admitted exactly if its job is not taken, its context is
      not done and fewer callers hold a slot than the last limit that was set; it goes to sleep
      exactly if only the slot is missing and its record can be written.  Nobody else moves. */
  lemma CallDecided(states: seq<State>, events: seq<Event>, k: nat)
    requires IsRun(states, events) && k < |events| && (events[k].Enter? || events[k].Resume?)
    ensures
      var s, t, e := states[k], states[k + 1], events[k];
      var room := |s.holding| < LastLimit(states[0].limit, events[..k]);
      && t.holding == (if !Refused(e) && !e.expired && room then s.holding + {e.id} else s.holding)
      && t.asleep == (if !Refused(e) && !e.expired && !room && !e.storeFails then s.asleep + {e.id} else s.asleep)
      && t.woken == s.woken - {e.id} && e.id !in s.holding + s.asleep
  {
    hide LastLimit, Apply, Enabled, Counted, Init;
    RunCounted(states, events);
    LimitIsLast(states, events, k);
    DecidedStep(states[k], events[k]);
    CallerElsewhere(states[k], events[k]);
  }

  lemma DecidedStep(s: State, e: Event)
    requires Enabled(s, e) && (e.Enter? || e.Resume?)
    ensures
      var t, room := Apply(s, e), s.current < s.limit;
      && t.holding == (if !Refused(e) && !e.expired && room then s.holding + {e.id} else s.holding)
      && t.asleep == (if !Refused(e) && !e.expired && !room && !e.storeFails then s.asleep + {e.id} else s.asleep)
      && t.woken == s.woken - {e.id}
  {
    if e.Enter? {
      assert s.woken - {e.id} == s.woken;
    }
  }

  lemma CallerElsewhere(s: State, e: Event)
    requires Counted(s) && Enabled(s, e) && (e.Enter? || e.Resume?)
    ensures s.current == |s.holding| && e.id !in s.holding + s.asleep
  {
  }

  /** A slot given back wakes one sleeper, if there is one; a change of the limit wakes all. */
  lemma SleepersWoken(states: seq<State>, events: seq<Event>, k: nat)
    requires IsRun(states, events) && k < |events| && (events[k].Unlock? || events[k].SetLimit?)
    ensures
      var s, t, e := states[k], states[k + 1], events[k];
      && t.holding == (if e.Unlock? then s.holding - {e.id} else s.holding)
      && t.asleep + t.woken == s.asleep + s.woken && s.woken <= t.woken
      && (e.SetLimit? ==> t.asleep == {})
      && (e.Unlock? && s.asleep != {} ==> e.wakes in s.asleep && t.asleep == s.asleep - {e.wakes})
  {
    RunCounted(states, events);
    assert Enabled(states[k], events[k]) && states[k + 1] == Apply(states[k], events[k]);
  }

  /** Once the limit is set to n, and until it is set again, whoever is admitted finds fewer
      than n slots held. */
  lemma AdmittedBelowLast(states: seq<State>, events: seq<Event>, lo: nat, k: nat, id: Caller)
    requires IsRun(states, events) && lo < k < |events| && events[lo].SetLimit?
    requires forall i :: lo < i <= k ==> !events[i].SetLimit?
    requires id in states[k + 1].holding && id !in states[k].holding
    ensures |states[k].holding| < events[lo].limit
  {
    hide Enabled, Apply, LastLimit, Init;
    if events[k].Unlock? {
      SleepersWoken(states, events, k);
    } else {
      CallDecided(states, events, k);
      LastLimitHolds(states[0].limit, events[..k], lo);
    }
  }

  /** Letting every woken caller run, in any order, ends with no free slot or no sleeper. */
  lemma {:induction false} WokenFillSlots(states: seq<State>, events: seq<Event>)
    requires |states| == |events| + 1 && Counted(states[0]) && NoLostWakeup(states[0])
    requires forall i :: 0 <= i < |events| ==>
      && events[i].Resume? && !events[i].expired
      && Enabled(states[i], events[i]) && states[i + 1] == Apply(states[i], events[i])
    ensures |states[|events|].woken| == |states[0].woken| - |events|
    ensures Counted(states[|events|]) && NoLostWakeup(states[|events|])
    ensures |events| == |states[0].woken| ==> Free(states[|events|]) == 0 || states[|events|].asleep == {}
  {
    if events != [] {
      var n := |events| - 1;
      WokenFillSlots(states[..n + 1], events[..n]);
      var s := states[n];
      assert states[..n + 1][n] == s;
      CountedStep(s, events[n]);
      WakeupStepIff(s, events[n]);
      assert |s.woken - {events[n].id}| == |s.woken| - 1;
    }
  }

  /** With an expiring context the wake-up can be lost for good: two callers wait for one
      slot, the one that is woken has expired, and the other sleeps on beside a free slot. */
  lemma ExpiredWakeupIsLost() returns (states: seq<State>, events: seq<Event>)
    ensures IsRun(states, events)
    ensures var s := states[|events|]; s.asleep == {2} && s.woken == {} && s.holding == {} && Free(s) == 1
  {
    events := [Enter(0, false, false, false), Enter(1, false, false, false), Enter(2, false, false, false),
               Unlock(0, 1), Resume(1, true, false)];
    var s0 := Init(1);
    var s1 := Apply(s0, events[0]);
    var s2 := Apply(s1, events[1]);
    var s3 := Apply(s2, events[2]);
    assert s3 == State(1, 1, {1, 2}, {}, {0});
    var s4 := Apply(s3, events[3]);
    assert s4 == State(0, 1, {2}, {1}, {});
    var s5 := Apply(s4, events[4]);
    states := [s0, s1, s2, s3, s4, s5];
  }

  // ---- the object -------------------------------------------------------------------------

  /** What a call answers, with whether it waited; Waiting is a call still inside Wait. */
  datatype Answer = Waiting | Rejected(awakeFromWait: bool) | Admitted(awakeFromWait: bool)

  class Gate {
    var currentParallel: int
    var maxParallel: int
    // the condition variable's queue, and the callers it has let go
    var asleep: set<Caller>
    var woken: set<Caller>
    ghost var holding: set<Caller>

    ghost function Abs(): State
      reads this
    {
      State(currentParallel, maxParallel, asleep, woken, holding)
    }

    ghost predicate Valid()
      reads this
    {
      Counted(Abs())
    }

    constructor (maxParallel: int)
      ensures Valid() && Abs() == Init(maxParallel)
    {
      currentParallel, this.maxParallel := 0, maxParallel;
      asleep, woken, holding := {}, {}, {};
    }

    /** tryLock up to its first Wait.  taken: a job on the same path is pending or running. */
    method Enter(id: Caller, taken: bool, expired: bool, storeFails: bool) returns (a: Answer)
      requires Valid() && id !in Known(Abs())
      modifies this
      ensures Valid() && Abs() == Apply(old(Abs()), Event.Enter(id, taken, expired, storeFails))
      ensures a.Admitted? <==> id in holding
      ensures a.Waiting? <==> id in asleep
      ensures a.Admitted? <==> !taken && !expired && old(currentParallel < maxParallel)
      ensures a.Waiting? <==> !taken && !expired && !storeFails && old(currentParallel >= maxParallel)
      ensures !a.Waiting? ==> !a.awakeFromWait
      ensures maxParallel == old(maxParallel) && woken == old(woken)
      ensures currentParallel == old(currentParallel) + if a.Admitted? then 1 else 0
      ensures holding == if a.Admitted? then old(holding) + {id} else old(holding)
      ensures asleep == if a.Waiting? then old(asleep) + {id} else old(asleep)
    {
      if taken {
        return Rejected(false);
      }
      a := LoopTest(id, expired, storeFails, false);
    }

    /** The wait loop's test and what comes after it. */
    method LoopTest(id: Caller, expired: bool, storeFails: bool, waited: bool) returns (a: Answer)
      requires Valid() && id !in Known(Abs())
      modifies this
      ensures Valid() && Abs() == Decide(old(Abs()), id, expired, storeFails)
      ensures a.Admitted? <==> !expired && old(currentParallel < maxParallel)
      ensures a.Waiting? <==> !expired && !storeFails && old(currentParallel >= maxParallel)
      ensures !a.Waiting? ==> a.awakeFromWait == waited
      ensures maxParallel == old(maxParallel) && woken == old(woken)
      ensures currentParallel == old(currentParallel) + if a.Admitted? then 1 else 0
      ensures holding == if a.Admitted? then old(holding) + {id} else old(holding)
      ensures asleep == if a.Waiting? then old(asleep) + {id} else old(asleep)
    {
      hide Counted;
      DecideCounted(Abs(), id, expired, storeFails);
      if currentParallel >= maxParallel && !expired {
        if storeFails {
          return Rejected(waited);
        }
        asleep := asleep + {id};
        return Waiting;
      }
      if expired {
        return Rejected(waited);
      }
      currentParallel := currentParallel + 1;
      holding := holding + {id};
      return Admitted(waited);
    }

    /** A woken caller gets the mutex back inside Wait and tests again. */
    method Resume(id: Caller, expired: bool, storeFails: bool) returns (a: Answer)
      requires Valid() && id in woken
      modifies this
      ensures Valid() && Abs() == Apply(old(Abs()), Event.Resume(id, expired, storeFails))
      ensures a.Admitted? <==> id in holding
      ensures a.Waiting? <==> id in asleep
      ensures a.Admitted? <==> !expired && old(currentParallel < maxParallel)
      ensures a.Waiting? <==> !expired && !storeFails && old(currentParallel >= maxParallel)
      ensures !a.Waiting? ==> a.awakeFromWait
      ensures maxParallel == old(maxParallel) && woken == old(woken) - {id}
      ensures currentParallel == old(currentParallel) + if a.Admitted? then 1 else 0
      ensures holding == if a.Admitted? then old(holding) + {id} else old(holding)
      ensures asleep == if a.Waiting? then old(asleep) + {id} else old(asleep)
    {
      woken := woken - {id};
      a := LoopTest(id, expired, storeFails, true);
    }

    /** unlock: Signal may pick any sleeper. */
    method Unlock(id: Caller) returns (ghost wakes: Caller)
      requires Valid() && id in holding
      modifies this
      ensures Enabled(old(Abs()), Event.Unlock(id, wakes))
      ensures Valid() && Abs() == Apply(old(Abs()), Event.Unlock(id, wakes))
      ensures maxParallel == old(maxParallel) && currentParallel == old(currentParallel) - 1 && holding == old(holding) - {id}
      ensures old(asleep) == {} ==> asleep == {} && woken == old(woken)
      ensures old(asleep) != {} ==> wakes in old(asleep) && asleep == old(asleep) - {wakes} && woken == old(woken) + {wakes}
    {
      currentParallel := currentParallel - 1;
      holding := holding - {id};
      wakes := id;
      if asleep != {} {
        var w :| w in asleep;
        asleep, woken := asleep - {w}, woken + {w};
        wakes := w;
      }
    }

    /** setMaxParallel: Broadcast wakes everyone. */
    method SetMax(max: int)
      requires Valid()
      modifies this
      ensures Valid() && Abs() == Apply(old(Abs()), SetLimit(max))
      ensures maxParallel == max && currentParallel == old(currentParallel) && holding == old(holding)
      ensures asleep == {} && woken == old(woken) + old(asleep)
    {
      maxParallel := max;
      woken, asleep := woken + asleep, {};
    }
  }

  /** A new limit is in force at once: the next request with a job of its own is admitted
      exactly if fewer hold a slot than the new limit, and one whose job is taken never. */
  method EnterAfterLimit(gate: Gate, max: int, id: Caller, taken: bool) returns (a: Answer)
    requires gate.Valid() && id !in Known(gate.Abs())
    modifies gate
    ensures gate.Valid() && gate.maxParallel == max
    ensures a.Admitted? <==> !taken && |old(gate.holding)| < max
    ensures a.Waiting? <==> !taken && |old(gate.holding)| >= max
    ensures gate.holding == if a.Admitted? then old(gate.holding) + {id} else old(gate.holding)
  {
    gate.SetMax(max);
    a := gate.Enter(id, taken, false, false);
  }
}

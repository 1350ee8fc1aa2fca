/** Upload progress of internal/backup/stream.go: one goroutine gathers metrics, another takes
    snapshots, reports their bytes and resets the gatherer.  What is gathered between a snapshot
    and its reset is never reported. */
module Progress {
  import opened Basics

  /** One message of the upload. */
  datatype Metric = Metric(uploaded: nat, total: int, estimated: int)

  /** Where the progress handler is between its calls. */
  datatype Handler = Idle | Snapped(snap: nat) | Acked(snap: nat) | Reported(snap: nat)

  datatype State = State(
    cum: nat,
    total: int,
    estimated: int,
    newData: bool,
    handler: Handler,
    backupBytes: nat)

  datatype Action =
    | Gather(metric: Metric)
    | Snapshot
    | Skip
    | Ack
    | Report
    | Reset

  predicate Enabled(s: State, a: Action) {
    match a
    case Gather(_) => true
    case Snapshot => s.handler.Idle? && s.newData
    case Skip => s.handler.Idle? && !s.newData
    case Ack => s.handler.Snapped?
    case Report => s.handler.Acked?
    case Reset => s.handler.Reported?
  }

  function Apply(s: State, a: Action): State
    requires Enabled(s, a)
  {
    match a
    case Gather(m) => s.(cum := s.cum + m.uploaded, total := m.total, estimated := m.estimated, newData := true)
    case Snapshot => s.(handler := Snapped(s.cum))
    case Skip => s
    case Ack => s.(handler := Acked(s.handler.snap))
    case Report => s.(backupBytes := s.backupBytes + s.handler.snap, handler := Reported(s.handler.snap))
    case Reset => s.(cum := 0, total := 0, estimated := 0, newData := false, handler := Idle)
  }

  ghost predicate IsRun(s: seq<State>, actions: seq<Action>) {
    && |s| == |actions| + 1
    && forall i :: 0 <= i < |actions| ==> Enabled(s[i], actions[i]) && s[i + 1] == Apply(s[i], actions[i])
  }

  const START := State(0, 0, 0, false, Idle, 0)

  // ---- what a run gathered, told from its actions alone -------------------------------------

  function BytesOf(a: Action): nat {
    if a.Gather? then a.metric.uploaded else 0
  }

  /** All bytes gathered. */
  function Gathered(actions: seq<Action>): nat {
    if actions == [] then 0 else Gathered(actions[..|actions| - 1]) + BytesOf(actions[|actions| - 1])
  }

  /** A snapshot was taken and not yet followed by a reset. */
  predicate Open(actions: seq<Action>) {
    actions != [] &&
    match actions[|actions| - 1]
    case Snapshot => true
    case Reset => false
    case _ => Open(actions[..|actions| - 1])
  }

  /** The bytes gathered since the snapshot that is open. */
  function Late(actions: seq<Action>): nat {
    if !Open(actions) || actions[|actions| - 1].Snapshot? then 0
    else Late(actions[..|actions| - 1]) + BytesOf(actions[|actions| - 1])
  }

  /** The bytes gathered between a snapshot and its reset. */
  function Lost(actions: seq<Action>): nat {
    if actions == [] then 0
    else Lost(actions[..|actions| - 1]) + if actions[|actions| - 1].Reset? then Late(actions[..|actions| - 1]) else 0
  }

  /** The bytes of the open snapshot that are reported already. */
  function Counted(s: State): nat {
    if s.handler.Reported? then s.handler.snap else 0
  }

  // ---- conservation ---------------------------------------------------------------------------

  ghost predicate Balanced(s: State, actions: seq<Action>) {
    && (s.handler.Idle? <==> !Open(actions))
    && (!s.handler.Idle? ==> s.cum == s.handler.snap + Late(actions))
    && (!s.newData ==> s.cum == 0)
    && s.backupBytes + Lost(actions) + s.cum == Gathered(actions) + Counted(s)
  }

  lemma BalancedStep(s: State, actions: seq<Action>, a: Action)
    requires Balanced(s, actions) && Enabled(s, a)
    ensures Balanced(Apply(s, a), actions + [a])
  {
    var t := actions + [a];
    assert t[..|t| - 1] == actions;
    match a {
      case Gather(m) =>
      case Snapshot =>
      case Skip =>
      case Ack =>
      case Report =>
      case Reset =>
    }
  }

  /** Every byte gathered is reported, lost to a reset, or still waiting: in every interleaving,
      at every moment. */
  lemma {:induction false} RunBalanced(s: seq<State>, actions: seq<Action>)
    requires IsRun(s, actions) && s[0] == START
    ensures Balanced(s[|actions|], actions)
  {
    if actions != [] {
      var n := |actions| - 1;
      RunBalanced(s[..n + 1], actions[..n]);
      assert actions == actions[..n] + [actions[n]];
      hide Balanced, Apply, Enabled;
      BalancedStep(s[n], actions[..n], actions[n]);
    } else {
      assert !Open([]);
    }
  }

  /** What one upload adds to the backup bytes never exceeds what it gathered. */
  lemma ReportedWithinGathered(s: seq<State>, actions: seq<Action>)
    requires IsRun(s, actions) && s[0] == START
    ensures s[|actions|].backupBytes + Lost(actions) <= Gathered(actions)
  {
    RunBalanced(s, actions);
  }

  /** Between two passes of the handler, all that was gathered and does not wait is reported
      exactly when nothing was gathered between a snapshot and its reset. */
  lemma ReportedIff(s: seq<State>, actions: seq<Action>)
    requires IsRun(s, actions) && s[0] == START && s[|actions|].handler.Idle?
    ensures s[|actions|].backupBytes + s[|actions|].cum == Gathered(actions) <==> Lost(actions) == 0
  {
    RunBalanced(s, actions);
  }

  /** The metric gathered last since the last reset. */
  function LastMetric(actions: seq<Action>): Option<Metric> {
    if actions == [] then None
    else
      match actions[|actions| - 1]
      case Gather(metric) => Some(metric)
      case Reset => None
      case _ => LastMetric(actions[..|actions| - 1])
  }

  /** There is new data exactly if something was gathered since the last reset, and the totals
      are those gathered last. */
  ghost predicate Latest(s: State, last: Option<Metric>) {
    && (s.newData <==> last.Some?)
    && s.total == (if last.Some? then last.value.total else 0)
    && s.estimated == (if last.Some? then last.value.estimated else 0)
  }

  lemma LatestStep(s: State, actions: seq<Action>, a: Action)
    requires Latest(s, LastMetric(actions)) && Enabled(s, a)
    ensures Latest(Apply(s, a), LastMetric(actions + [a]))
  {
    var t := actions + [a];
    assert t[..|t| - 1] == actions;
  }

  lemma {:induction false} LatestTold(s: seq<State>, actions: seq<Action>)
    requires IsRun(s, actions) && s[0] == START
    ensures Latest(s[|actions|], LastMetric(actions))
  {
    hide Latest, Apply, Enabled;
    if actions != [] {
      var n := |actions| - 1;
      LatestTold(s[..n + 1], actions[..n]);
      assert actions == actions[..n] + [actions[n]] && s[..n + 1][n] == s[n];
      LatestStep(s[n], actions[..n], actions[n]);
    } else {
      LatestAtStart();
    }
  }

  lemma LatestAtStart()
    ensures Latest(START, LastMetric([]))
  {
  }

  /** What the handler adds to the backup bytes is what was waiting when it took its snapshot,
      and it does so once. */
  lemma ReportsSnapshot(s: seq<State>, actions: seq<Action>, i: nat, k: nat)
    requires IsRun(s, actions) && i < k < |actions| && actions[i].Snapshot? && actions[k].Report?
    requires forall j :: i < j < k ==> !actions[j].Snapshot?
    ensures s[k + 1].backupBytes == s[k].backupBytes + s[i].cum
  {
    SnapshotKept(s, actions, i, k);
    assert Enabled(s[k], actions[k]) && s[k + 1] == Apply(s[k], actions[k]);
  }

  lemma SnapStep(s: State, a: Action)
    requires Enabled(s, a)
    ensures !a.Report? ==> Apply(s, a).backupBytes == s.backupBytes
    ensures !a.Snapshot? && !Apply(s, a).handler.Idle? ==> !s.handler.Idle? && Apply(s, a).handler.snap == s.handler.snap
    ensures a.Snapshot? ==> Apply(s, a).handler == Snapped(s.cum)
    ensures a.Reset? ==> Apply(s, a).cum == 0
    ensures a.Gather? ==> Apply(s, a).cum == s.cum + a.metric.uploaded
    ensures !a.Gather? && !a.Reset? ==> Apply(s, a).cum == s.cum
  {
  }

  lemma {:induction false} SnapshotKept(s: seq<State>, actions: seq<Action>, i: nat, k: nat)
    requires IsRun(s, actions) && i < k < |s| && actions[i].Snapshot?
    requires forall j :: i < j < k ==> !actions[j].Snapshot?
    ensures !s[k].handler.Idle? ==> s[k].handler.snap == s[i].cum
    decreases k
  {
    hide Apply, Enabled;
    assert Enabled(s[k - 1], actions[k - 1]) && s[k - 1 + 1] == Apply(s[k - 1], actions[k - 1]);
    SnapStep(s[k - 1], actions[k - 1]);
    if i < k - 1 {
      SnapshotKept(s, actions, i, k - 1);
    }
  }

  /** A run that loses a byte. */
  lemma GatherIsLost() returns (s: seq<State>, actions: seq<Action>)
    ensures IsRun(s, actions) && s[0] == START
    ensures s[|actions|].handler.Idle? && s[|actions|].cum == 0
    ensures s[|actions|].backupBytes == 1 && Gathered(actions) == 2
  {
    var g := Gather(Metric(1, 0, 0));
    actions := [g, Snapshot, g, Ack, Report, Reset];
    var s1 := Apply(START, g);
    var s2 := Apply(s1, Snapshot);
    var s3 := Apply(s2, g);
    var s4 := Apply(s3, Ack);
    var s5 := Apply(s4, Report);
    s := [START, s1, s2, s3, s4, s5, Apply(s5, Reset)];
    GatheredOf(actions);
  }

  lemma GatheredOf(a: seq<Action>)
    requires |a| == 6
    ensures Gathered(a) == BytesOf(a[0]) + BytesOf(a[1]) + BytesOf(a[2]) + BytesOf(a[3]) + BytesOf(a[4]) + BytesOf(a[5])
  {
    assert a[..5][..4] == a[..4] && a[..4][..3] == a[..3] && a[..3][..2] == a[..2] && a[..2][..1] == a[..1] && a[..1][..0] == [];
    assert Gathered(a[..5]) == Gathered(a[..4]) + BytesOf(a[4]);
    assert Gathered(a[..4]) == Gathered(a[..3]) + BytesOf(a[3]);
    assert Gathered(a[..3]) == Gathered(a[..2]) + BytesOf(a[2]);
    assert Gathered(a[..2]) == Gathered(a[..1]) + BytesOf(a[1]);
    assert Gathered(a[..1]) == Gathered([]) + BytesOf(a[0]);
  }

  // ---- the gatherer and the handler ---------------------------------------------------------------

  function Sum(ms: seq<Metric>): nat {
    if ms == [] then 0 else Sum(ms[..|ms| - 1]) + ms[|ms| - 1].uploaded
  }

  /** uploadMetricGather, with the backup bytes of the repository and, as ghost, the handler's
      place; every method is one locked section. */
  class Gatherer {
    var cumUploadedBytes: nat
    var totalUploadedBytes: int
    var estimatedBytes: int
    var lastAckTime: int
    var newDataArrived: bool
    var backupBytes: nat
    ghost var handler: Handler

    ghost function Abs(): State
      reads this
    {
      State(cumUploadedBytes, totalUploadedBytes, estimatedBytes, newDataArrived, handler, backupBytes)
    }

    constructor (now: int)
      ensures Abs() == START && lastAckTime == now
    {
      cumUploadedBytes, totalUploadedBytes, estimatedBytes := 0, 0, 0;
      lastAckTime, newDataArrived, backupBytes, handler := now, false, 0, Idle;
    }

    method Gather(metric: Metric)
      modifies this
      ensures Abs() == Apply(old(Abs()), Action.Gather(metric)) && lastAckTime == old(lastAckTime)
      ensures cumUploadedBytes == old(cumUploadedBytes) + metric.uploaded && newDataArrived
      ensures totalUploadedBytes == metric.total && estimatedBytes == metric.estimated && backupBytes == old(backupBytes)
    {
      cumUploadedBytes := cumUploadedBytes + metric.uploaded;
      totalUploadedBytes := metric.total;
      estimatedBytes := metric.estimated;
      newDataArrived := true;
    }

    method Snapshot() returns (cum: nat, arrived: bool)
      requires handler.Idle?
      modifies this`handler
      ensures arrived == newDataArrived && cum == cumUploadedBytes
      ensures Abs() == Apply(old(Abs()), if arrived then Action.Snapshot else Skip)
    {
      cum, arrived := cumUploadedBytes, newDataArrived;
      if arrived {
        handler := Snapped(cum);
      }
    }

    method SetLastAckTime(now: int)
      requires handler.Snapped?
      modifies this`lastAckTime, this`handler
      ensures Abs() == Apply(old(Abs()), Ack) && lastAckTime == now
    {
      lastAckTime := now;
      handler := Acked(handler.snap);
    }

    method IncBackupBytes(length: nat)
      requires handler == Acked(length)
      modifies this`backupBytes, this`handler
      ensures Abs() == Apply(old(Abs()), Report)
      ensures backupBytes == old(backupBytes) + length && cumUploadedBytes == old(cumUploadedBytes)
    {
      backupBytes := backupBytes + length;
      handler := Reported(length);
    }

    method Reset(now: int)
      requires handler.Reported?
      modifies this
      ensures Abs() == Apply(old(Abs()), Action.Reset) && lastAckTime == now
      ensures cumUploadedBytes == 0 && totalUploadedBytes == 0 && estimatedBytes == 0 && !newDataArrived
      ensures backupBytes == old(backupBytes)
    {
      cumUploadedBytes, totalUploadedBytes, estimatedBytes := 0, 0, 0;
      lastAckTime, newDataArrived, handler := now, false, Idle;
    }

    /** The gathering goroutine runs for a while. */
    method OthersGather(metrics: seq<Metric>)
      modifies this
      ensures cumUploadedBytes == old(cumUploadedBytes) + Sum(metrics)
      ensures newDataArrived == (old(newDataArrived) || metrics != [])
      ensures handler == old(handler) && backupBytes == old(backupBytes) && lastAckTime == old(lastAckTime)
    {
      for i := 0 to |metrics|
        invariant cumUploadedBytes == old(cumUploadedBytes) + Sum(metrics[..i])
        invariant newDataArrived == (old(newDataArrived) || i > 0)
        invariant handler == old(handler) && backupBytes == old(backupBytes) && lastAckTime == old(lastAckTime)
      {
        assert metrics[..i + 1][..i] == metrics[..i];
        Gather(metrics[i]);
      }
      assert metrics[..|metrics|] == metrics;
    }

    /** One pass of the handler, while metrics are gathered in each of its gaps.  It reports
        what there was at its start; what the gaps brought is gone. */
    method ProgressHandle(now: int, later: int, beforeAck: seq<Metric>, beforeReport: seq<Metric>, beforeReset: seq<Metric>)
      returns (ok: bool)
      requires handler.Idle?
      modifies this
      ensures ok == old(newDataArrived) && handler.Idle?
      ensures !ok ==> Abs() == old(Abs()) && lastAckTime == old(lastAckTime)
      ensures ok ==> backupBytes == old(backupBytes) + old(cumUploadedBytes)
      ensures ok ==> cumUploadedBytes == 0 && !newDataArrived && lastAckTime == later
    {
      var cum, arrived := Snapshot();
      if !arrived {
        return false;
      }
      OthersGather(beforeAck);
      SetLastAckTime(now);
      OthersGather(beforeReport);
      IncBackupBytes(cum);
      OthersGather(beforeReset);
      Reset(later);
      ok := true;
    }
  }
}

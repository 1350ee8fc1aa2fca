/** What the read-ahead protocol guarantees: that its waits end, who holds which buffer, what a
    consumer may rely on, and what every run delivers. */
module ReadAheadRuns {
  import opened Basics
  import opened ReadAhead
  import P = BufferPool

  // ---- what the invariant means ---------------------------------------------------------

  /** A goroutine or consumer about to send never finds the channel full, and Put never
      panics on what the reader returns. */
  lemma NothingBlocks(c: Config, s: State)
    requires Inv(c, s)
    ensures s.owed > 0 ==> Enabled(c, s, PayToken)
    ensures s.prod.Sending? ==> Enabled(c, s, Send)
    ensures s.cur.Some? ==> !P.PutPanics(PoolConfig, s.cur.value.buf)
    ensures s.ready != [] ==> !P.PutPanics(PoolConfig, s.ready[0].buf)
    ensures s.cur.Some? && s.cur.value.IsEmpty() && !s.abandoned ==> Enabled(c, s, Release)
  {
    if s.cur.Some? {
      assert Slots(s)[0] == s.cur.value.buf;
    }
    if s.ready != [] {
      assert Slots(s)[if s.cur.Some? then 1 else 0] == s.ready[0].buf;
    }
  }

  /** The goroutine's next action, if it has one. */
  ghost predicate ProducerCanStep(c: Config, s: State) {
    exists a :: IsProducer(a) && Enabled(c, s, a)
  }

  ghost predicate IsStuck(s: State) {
    s.prod.Gone? || (s.prod.Selecting? && s.token == 0 && !s.exitClosed)
  }

  lemma StuckCannotStep(c: Config, s: State)
    requires IsStuck(s)
    ensures !ProducerCanStep(c, s)
  {
    hide P.Got, Held, Slots, P.Enabled;
  }

  /** What the goroutine does next, by where it stands. */
  function NextAction(s: State, leave: bool, eager: bool): Action {
    match s.prod
    case Selecting => if s.exitClosed && (leave || s.token == 0) then Leave else TakeToken
    case Granted => GetBuffer
    case Filling(_) => ReadInput(eager)
    case Sending(_) => Send
    case Closing => CloseReady
    case Signalling => CloseExited
    case Gone => CloseExited
  }

  lemma CanTakeTurn(c: Config, s: State, leave: bool, eager: bool)
    requires ProducerSane(c, s) && !IsStuck(s) && (s.prod.Sending? ==> Enabled(c, s, Send))
    requires P.Got(PoolConfig, s.pool).cap == BUFFER_SIZE
    ensures IsProducer(NextAction(s, leave, eager)) && Enabled(c, s, NextAction(s, leave, eager))
  {
    hide SoftStartSize, P.Got, Held, Slots;
    SizeDoubles(s.size);
  }

  lemma SaneParts(c: Config, s: State)
    requires Inv(c, s)
    ensures ProducerSane(c, s) && P.Inv(PoolConfig, s.pool)
  {
  }

  /** The goroutine is stuck only for want of a token, with exit open, or when it is gone. */
  lemma ProducerStuckIff(c: Config, s: State)
    requires Inv(c, s)
    ensures ProducerCanStep(c, s) <==> !(s.prod.Gone? || (s.prod.Selecting? && s.token == 0 && !s.exitClosed))
  {
    hide Inv, Enabled, ProducerSane, P.Inv, P.Got, P.AfterGet, NextAction, Slots, Held;
    if IsStuck(s) {
      StuckCannotStep(c, s);
    } else {
      SaneParts(c, s);
      P.GetKeepsInv(PoolConfig, s.pool);
      NothingBlocks(c, s);
      CanTakeTurn(c, s, false, false);
    }
  }

  lemma ClosedWhenGone(c: Config, s: State)
    requires Inv(c, s) && !s.readyClosed
    ensures !s.exited
  {
  }

  lemma NextTurn(c: Config, s: State, eager: bool)
    requires Inv(c, s) && ProducerCanStep(c, s)
    ensures P.Inv(PoolConfig, s.pool)
    ensures !s.prod.Gone? && (s.prod.Selecting? ==> s.exitClosed || s.token > 0)
    ensures s.prod.Granted? ==> Enabled(c, s, GetBuffer)
    ensures s.prod.Filling? ==> Enabled(c, s, ReadInput(eager))
    ensures s.prod.Sending? ==> Enabled(c, s, Send)
  {
    hide Inv, Enabled, ProducerSane, P.Inv, P.Got, P.AfterGet, Slots, Held, ProducerCanStep;
    ProducerStuckIff(c, s);
    SaneParts(c, s);
    P.GetKeepsInv(PoolConfig, s.pool);
    NothingBlocks(c, s);
    CanTakeTurn(c, s, false, eager);
  }

  /** A consumer waiting on ready has paid its tokens back, so either something is there, or
      the channel is closed, or the goroutine can act.  Waiting for exited is the same once
      exit is closed. */
  lemma WaitsEnd(c: Config, s: State)
    requires Inv(c, s)
    ensures s.cur.None? && s.owed == 0 && s.ready == [] && !s.readyClosed ==> ProducerCanStep(c, s)
    ensures s.exitClosed && !s.exited ==> ProducerCanStep(c, s)
  {
    ProducerStuckIff(c, s);
  }

  /** How many actions the goroutine can still take without another token. */
  function Fuel(s: State): nat {
    4 * s.token + match s.prod
                  case Granted => 6
                  case Filling(_) => 5
                  case Sending(_) => 4
                  case Selecting => 3
                  case Closing => 2
                  case Signalling => 1
                  case Gone => 0
  }

  /** Every action of the goroutine burns fuel and only a returned token adds any, so the
      waits above are over after at most Fuel actions. */
  lemma FuelBurns(c: Config, s: State, a: Action)
    requires Enabled(c, s, a)
    ensures IsProducer(a) ==> Fuel(Apply(c, s, a)) < Fuel(s)
    ensures !IsProducer(a) && !a.PayToken? ==> Fuel(Apply(c, s, a)) == Fuel(s)
  {
    hide P.Got, P.AfterGet, P.AfterPut, P.Apply, P.Enabled, Held, Slots, Line, SoftSlice, Filled, NextSize;
    match a {
      case TakeToken => case Leave => case GetBuffer => case ReadInput(_) => case Send =>
      case CloseReady => case CloseExited => case Release => case PayToken => case Receive =>
      case Take(_) => case Move(_) => case NoteError => case StopInput => case BeginAbandon =>
      case DropCur => case DropReady => case Other(_) =>
    }
  }

  /** None of the reader's buffers is in the cache, and no two of its places share one. */
  lemma HeldApartFromCache(c: Config, s: State, i: nat, j: nat)
    requires Inv(c, s) && i < |Slots(s)| && j < |s.pool.cache|
    ensures Slots(s)[i].id != s.pool.cache[j].id
    ensures Slots(s)[i].id in s.pool.out
    ensures forall k :: 0 <= k < |Slots(s)| && Slots(s)[k].id == Slots(s)[i].id ==> k == i
  {
    assert s.pool.cache[j].id !in s.pool.out;
    assert Slots(s)[i].id in s.pool.out;
  }

  /** Returning a buffer takes it out of the reader's hands, so it is returned once. */
  lemma PutOnce(c: Config, s: State, a: Action)
    requires Inv(c, s) && Enabled(c, s, a) && HeadLeaves(a)
    ensures Slots(s)[0].id in Held(s) && Slots(s)[0].id !in Held(Apply(c, s, a))
    ensures Held(Apply(c, s, a)) == Held(s) - {Slots(s)[0].id}
    ensures Slots(s)[0].id !in Apply(c, s, a).pool.out
  {
    SlotsHeadLeaves(c, s, a);
    HeldBySlots(s, 0);
    var slots, t := Slots(s), Apply(c, s, a);
    forall x | x in Held(s) && x != slots[0].id ensures x in Held(t) {
      var i :| 0 <= i < |slots| && slots[i].id == x;
      assert Slots(t)[i - 1] == slots[i];
    }
    forall x | x in Held(t) ensures x in Held(s) && x != slots[0].id {
      var i :| 0 <= i < |Slots(t)| && Slots(t)[i].id == x;
      assert slots[i + 1] == Slots(t)[i];
    }
  }

  /** When Abandon has drained the closed channel, every buffer ever taken is back. */
  lemma AbandonReturnsAll(c: Config, s: State)
    requires Inv(c, s) && s.readyClosed && s.cur.None? && s.ready == []
    ensures Slots(s) == [] && Held(s) == {}
    ensures s.taken == s.returned
  {
  }

  /** Once the input's error is recorded it stays, and nothing more is handed over. */
  lemma ErrorSticks(c: Config, s: State, a: Action)
    requires Inv(c, s) && Enabled(c, s, a) && s.err.Some?
    ensures Apply(c, s, a).err == s.err == Some(c.fault)
    ensures Apply(c, s, a).delivered == s.delivered && Apply(c, s, a).at == s.at == |c.input|
  {
    hide Apply, Enabled, InLine, Positioned, Owned, TokensConserved, ProducerSane;
    if a.NoteError? {
      ErrorNoted(c, s);
    } else {
      ErrorRest(c, s, a);
    }
  }

  lemma PoolInv(c: Config, s: State)
    requires Inv(c, s)
    ensures P.Inv(PoolConfig, s.pool)
  {
  }

  /** A buffer about to be received has not been read from, and is empty only if it brings
      the error. */
  lemma NextBuffer(c: Config, s: State)
    requires Inv(c, s) && s.cur.None? && s.ready != []
    ensures s.ready[0].offset == 0 && (s.ready[0].IsEmpty() ==> s.ready[0].err.Some?)
  {
    assert Line(s)[0] == s.ready[0];
  }

  /** A buffer with the error is the last one: it ends the input, and nothing follows it. */
  lemma LastBuffer(c: Config, s: State)
    requires Inv(c, s) && s.cur.Some? && s.cur.value.err.Some?
    ensures s.ready == [] && Returning(s.prod)
    ensures s.cur.value.err == Some(c.fault)
    ensures !s.abandoned ==> s.at + s.cur.value.Left() == |c.input|
  {
    assert Line(s)[0] == s.cur.value;
    assert |Line(s)| == 1;
    assert FaultInLine(Line(s));
  }

  lemma TokensSettled(c: Config, s: State)
    requires Inv(c, s) && s.abandoned
    ensures s.owed == 0
  {
  }

  lemma TakeIsInput(c: Config, s: State, n: nat)
    requires Inv(c, s) && s.cur.Some? && n <= s.cur.value.Left() && !s.abandoned
    ensures 0 <= s.at && s.at + n <= |c.input| && s.cur.value.offset <= |s.cur.value.data|
    ensures s.cur.value.data[s.cur.value.offset..s.cur.value.offset + n] == c.input[s.at..s.at + n]
  {
    CurrentBuffer(c, s);
    TakeGivesInput(c, s, n);
  }

  lemma PositionInRange(c: Config, s: State)
    requires Inv(c, s)
    ensures 0 <= s.at <= |c.input|
  {
  }

  lemma ErrorMeans(c: Config, s: State)
    requires Inv(c, s)
    ensures s.err.Some? ==> s.err.value == c.fault && s.at == |c.input|
  {
  }

  /** Nothing comes after a recorded error, nor after the last buffer has been used up. */
  lemma UsedUp(c: Config, s: State)
    requires Inv(c, s)
    ensures s.readyClosed ==> Returning(s.prod)
    ensures s.err.Some? ==> s.ready == [] && Returning(s.prod) && (s.cur.Some? ==> s.cur.value.IsEmpty())
    ensures s.cur.Some? && s.cur.value.err.Some? ==> s.ready == [] && Returning(s.prod)
  {
    if s.cur.Some? && s.cur.value.err.Some? {
      LastBuffer(c, s);
    }
  }

  /** The consumer's buffer holds the input from its position on. */
  lemma CurrentBuffer(c: Config, s: State)
    requires Inv(c, s) && s.cur.Some?
    ensures s.cur.value.offset <= |s.cur.value.data|
    ensures !s.abandoned ==>
      && 0 <= s.at && s.at + s.cur.value.Left() <= |c.input|
      && s.cur.value.data[s.cur.value.offset..] == c.input[s.at..s.at + s.cur.value.Left()]
  {
    assert Line(s)[0] == s.cur.value;
    if !s.abandoned {
      TakeGivesInput(c, s, s.cur.value.Left());
    }
  }

  lemma DrainedUnstopped(c: Config, s: State)
    requires Inv(c, s) && s.cur.None? && s.ready == [] && s.readyClosed && !s.exitClosed
    ensures s.err == Some(c.fault) <==> !s.missed
    ensures s.err.None? <==> s.missed
  {
  }

  /** A drained, closed channel means the error was recorded or missed, or someone stopped
      the goroutine. */
  lemma DrainedBecause(c: Config, s: State)
    requires Inv(c, s) && s.cur.None? && s.ready == [] && s.readyClosed
    ensures s.err.Some? || s.missed || s.exitClosed
  {
  }

  // ---- what is ahead of the consumer ------------------------------------------------------

  /** The input position up to which buffers have been sent. */
  function Sent(s: State): nat {
    if s.prod.Sending? then s.prod.b.start else s.pos
  }

  /** The buffers the consumer has or can receive at once. */
  function Queue(s: State): seq<Buffer> {
    (if s.cur.Some? then [s.cur.value] else []) + s.ready
  }

  lemma QueueChain(c: Config, s: State)
    requires InLine(c, s)
    ensures Chain(c, Queue(s), Sent(s))
  {
    if s.prod.Sending? {
      var line, q := Line(s), Queue(s);
      assert line == q + [s.prod.b];
      assert forall i :: 0 <= i < |q| ==> line[i] == q[i];
    } else {
      assert Line(s) == Queue(s);
    }
  }

  lemma {:induction false} ChainSpan(c: Config, line: seq<Buffer>, pos: nat)
    requires Chain(c, line, pos) && line != []
    ensures line[0].start + line[0].offset <= pos <= line[0].start + |line| * BUFFER_SIZE
  {
    if |line| > 1 {
      ChainTail(c, line, pos);
      ChainSpan(c, line[1..], pos);
    }
  }

  lemma HeadIsQueued(s: State)
    requires Unread(s)
    ensures HeadAt(s) == if Queue(s) == [] then Sent(s) else Queue(s)[0].start + Queue(s)[0].offset
  {
  }

  /** What has been sent lies ahead of the consumer, at most a full buffer for each one queued
      and the current one. */
  lemma AheadBound(c: Config, s: State)
    requires Inv(c, s) && !s.abandoned
    ensures s.at <= Sent(s) <= s.at + (|s.ready| + 1) * BUFFER_SIZE
    ensures Sent(s) <= |c.input|
  {
    QueueChain(c, s);
    HeadIsQueued(s);
    if Queue(s) != [] {
      ChainSpan(c, Queue(s), Sent(s));
      QueueFirst(c, s);
    }
    SentWithin(c, s);
  }

  lemma QueueFirst(c: Config, s: State)
    requires Inv(c, s) && !s.abandoned && Queue(s) != []
    ensures Sent(s) <= s.at + (|s.ready| + 1) * BUFFER_SIZE
  {
    QueueChain(c, s);
    HeadIsQueued(s);
    if s.cur.Some? {
      var rest := Queue(s)[1..];
      assert rest == s.ready;
      if s.ready != [] {
        ChainTail(c, Queue(s), Sent(s));
        ChainSpan(c, rest, Sent(s));
      }
    } else {
      ChainSpan(c, Queue(s), Sent(s));
    }
  }

  lemma SentWithin(c: Config, s: State)
    requires InLine(c, s) && ProducerSane(c, s)
    ensures Sent(s) <= |c.input|
  {
    if s.prod.Sending? {
      assert Line(s)[|Line(s)| - 1] == s.prod.b;
    }
  }

  /** With the current buffer used up and none queued, the consumer is where sending has got. */
  lemma NothingAhead(c: Config, s: State)
    requires Inv(c, s) && !s.abandoned && s.ready == [] && (s.cur.Some? ==> s.cur.value.IsEmpty())
    ensures s.at == Sent(s)
  {
    QueueChain(c, s);
    HeadIsQueued(s);
  }

  lemma SentStays(s: State, t: State)
    requires t.prod == s.prod && t.pos == s.pos
    ensures Sent(t) == Sent(s)
  {
  }

  lemma SendGetsFurther(c: Config, s: State)
    requires InLine(c, s) && Enabled(c, s, Send)
    ensures Sent(s) <= Sent(Apply(c, s, Send))
  {
    assert Line(s)[|Line(s)| - 1] == s.prod.b;
  }

  lemma TurnSendsNothing(c: Config, s: State, a: Action)
    requires Enabled(c, s, a) && IsProducer(a) && !a.Send?
    ensures Sent(Apply(c, s, a)) == Sent(s)
  {
    hide P.Got, P.AfterGet, Held, Slots, Line, SoftSlice;
    match a {
      case TakeToken => case Leave => case GetBuffer => case ReadInput(_) => case CloseReady => case CloseExited =>
    }
  }

  /** Sending only ever gets further. */
  lemma SentGrows(c: Config, s: State, a: Action)
    requires InLine(c, s) && Enabled(c, s, a)
    ensures Sent(s) <= Sent(Apply(c, s, a))
    ensures !a.Send? ==> Sent(Apply(c, s, a)) == Sent(s)
  {
    hide Enabled, Apply, InLine;
    if a.Send? {
      SendGetsFurther(c, s);
    } else if IsProducer(a) {
      TurnSendsNothing(c, s, a);
    } else {
      Footprint(c, s, a);
    }
  }

  // ---- what a consumer may rely on ------------------------------------------------------

  /** What happens while the consumer is between two of its actions. */
  predicate IsEnvironment(a: Action) {
    IsProducer(a) || a.StopInput? || a.Other?
  }

  /** The consumer's own fields are as it left them. */
  ghost predicate SameConsumer(s: State, t: State) {
    && t.cur == s.cur && t.err == s.err && t.owed == s.owed && t.at == s.at
    && t.delivered == s.delivered && t.moved == s.moved && t.missed == s.missed
    && t.abandoned == s.abandoned && t.lost == s.lost && t.returned == s.returned
  }

  /** ready has at most grown, what was closed is closed, and a goroutine that has returned
      sends nothing more. */
  ghost predicate OnlySent(s: State, t: State) {
    && s.ready <= t.ready
    && (s.exitClosed ==> t.exitClosed)
    && (s.readyClosed ==> t.readyClosed)
    && (Returning(s.prod) ==> Returning(t.prod) && t.ready == s.ready)
    && |t.ready| - |s.ready| <= Fuel(s) - Fuel(t)
  }

  /** What the consumer may rely on between two of its actions; every buffer sent cost fuel. */
  ghost predicate Rely(s: State, t: State) {
    SameConsumer(s, t) && OnlySent(s, t) && Sent(s) <= Sent(t)
  }

  lemma TurnsRely(c: Config, s: State, a: Action)
    requires Enabled(c, s, a) && IsProducer(a)
    ensures SameConsumer(s, Apply(c, s, a)) && OnlySent(s, Apply(c, s, a))
  {
    hide P.Got, P.AfterGet, Held, Slots, Line, SoftSlice, Filled;
    match a {
      case TakeToken => case Leave => case GetBuffer => case ReadInput(_) => case Send => case CloseReady => case CloseExited =>
    }
  }

  lemma StrangersRely(c: Config, s: State, a: Action)
    requires Enabled(c, s, a) && (a.StopInput? || a.Other?)
    ensures SameConsumer(s, Apply(c, s, a)) && OnlySent(s, Apply(c, s, a))
  {
    hide P.Apply, P.Enabled, Held, Slots, Line;
  }

  lemma EnvironmentRelies(c: Config, s: State, a: Action)
    requires Inv(c, s) && Enabled(c, s, a) && IsEnvironment(a)
    ensures Rely(s, Apply(c, s, a))
    ensures !a.StopInput? ==> Apply(c, s, a).exitClosed == s.exitClosed
  {
    hide Enabled, Apply, Inv, InLine, SameConsumer, OnlySent, Sent;
    InLinePart(c, s);
    SentGrows(c, s, a);
    Footprint(c, s, a);
    if IsProducer(a) {
      TurnsRely(c, s, a);
    } else {
      StrangersRely(c, s, a);
    }
  }

  lemma InLinePart(c: Config, s: State)
    requires Inv(c, s)
    ensures InLine(c, s)
  {
  }

  lemma RelyNothing(s: State)
    ensures Rely(s, s)
  {
  }

  lemma RelyComposes(s: State, t: State, u: State)
    requires Rely(s, t) && Rely(t, u)
    ensures Rely(s, u)
  {
  }

  // ---- whole runs -------------------------------------------------------------------------

  ghost predicate IsRun(c: Config, states: seq<State>, actions: seq<Action>) {
    && c.buffers > 0
    && |states| == |actions| + 1
    && P.Inv(PoolConfig, states[0].pool) && states[0] == Init(c, states[0].pool)
    && forall i :: 0 <= i < |actions| ==> Enabled(c, states[i], actions[i]) && states[i + 1] == Apply(c, states[i], actions[i])
  }

  lemma InitKeepsInv(c: Config, pool: P.State)
    requires c.buffers > 0 && P.Inv(PoolConfig, pool)
    ensures Inv(c, Init(c, pool))
  {
    hide SoftStarted, P.Inv, Held;
    InitSoft(c, pool);
    assert Slots(Init(c, pool)) == [];
    assert Line(Init(c, pool)) == [];
  }

  lemma InitSoft(c: Config, pool: P.State)
    ensures SoftStarted(Init(c, pool))
  {
    hide Slots, Held;
    Pow2Small();
    assert Line(Init(c, pool)) == [];
  }

  lemma {:induction false} RunKeepsInv(c: Config, states: seq<State>, actions: seq<Action>)
    requires IsRun(c, states, actions)
    ensures forall i :: 0 <= i < |states| ==> Inv(c, states[i])
  {
    hide Enabled, Apply, Inv;
    if actions == [] {
      InitKeepsInv(c, states[0].pool);
    } else {
      var n := |actions| - 1;
      RunKeepsInv(c, states[..n + 1], actions[..n]);
      assert states[..n + 1][n] == states[n];
      StepKeepsInv(c, states[n], actions[n]);
    }
  }

  /** How many buffers the goroutine took, and how many left the line. */
  function Gets(actions: seq<Action>): nat {
    if actions == [] then 0
    else Gets(actions[..|actions| - 1]) + if actions[|actions| - 1].GetBuffer? then 1 else 0
  }

  function Spent(actions: seq<Action>): nat {
    if actions == [] then 0
    else Spent(actions[..|actions| - 1]) + if HeadLeaves(actions[|actions| - 1]) then 1 else 0
  }

  lemma CountsStep(c: Config, s: State, a: Action)
    requires Enabled(c, s, a)
    ensures Apply(c, s, a).taken == s.taken + if a.GetBuffer? then 1 else 0
    ensures Apply(c, s, a).returned == s.returned + if HeadLeaves(a) then 1 else 0
  {
    hide Apply, Enabled;
    if HeadLeaves(a) {
      LeavesCounts(c, s, a);
    } else if a.GetBuffer? {
      GetCounts(c, s);
    } else if a.Other? {
      OtherCounts(c, s, a);
    } else {
      PoolStays(c, s, a);
    }
  }

  lemma GetCounts(c: Config, s: State)
    requires Enabled(c, s, GetBuffer)
    ensures Apply(c, s, GetBuffer).taken == s.taken + 1 && Apply(c, s, GetBuffer).returned == s.returned
  {
    hide P.AfterGet, P.Got, SoftSlice;
  }

  lemma {:induction false} CountsTold(c: Config, states: seq<State>, actions: seq<Action>, i: nat)
    requires IsRun(c, states, actions) && i < |states|
    ensures states[i].taken == Gets(actions[..i]) && states[i].returned == Spent(actions[..i])
  {
    hide Enabled, Apply;
    if i > 0 {
      CountsTold(c, states, actions, i - 1);
      CountsStep(c, states[i - 1], actions[i - 1]);
      assert actions[..i][..i - 1] == actions[..i - 1];
    }
  }

  lemma SoftPart(c: Config, s: State)
    requires Inv(c, s)
    ensures SoftStarted(s) && P.Inv(PoolConfig, s.pool)
  {
    hide SoftStarted;
    PoolInv(c, s);
  }

  lemma TakesLength(c: Config, s: State)
    requires Inv(c, s) && Enabled(c, s, GetBuffer)
    ensures Apply(c, s, GetBuffer).prod.Filling? && Apply(c, s, GetBuffer).prod.buf.len == BufferLength(s.taken)
  {
    hide Inv, BufferLength, Enabled, Apply;
    SoftPart(c, s);
    P.GetKeepsInv(PoolConfig, s.pool);
    TakesSlice(c, s);
    LengthDoubles(s.taken);
  }

  /** In every run the k-th buffer taken, counting from 0, is 4096 * 2^k bytes long, or a full
      one where that is more: from the ninth on. */
  lemma KthBufferTaken(c: Config, states: seq<State>, actions: seq<Action>, i: nat)
    requires IsRun(c, states, actions) && i < |actions| && actions[i].GetBuffer?
    ensures states[i + 1].prod.Filling?
    ensures
      var k, n := Gets(actions[..i]), states[i + 1].prod.buf.len;
      && n == (if 4096 * Pow2(k) < 1048576 then 4096 * Pow2(k) else 1048576)
      && (k >= 8 ==> n == 1048576)
  {
    hide Enabled, Apply, Inv, Pow2;
    RunKeepsInv(c, states, actions);
    CountsTold(c, states, actions, i);
    TakesLength(c, states[i]);
    if Gets(actions[..i]) >= 8 {
      FullFromNinth(Gets(actions[..i]));
    }
  }

  /** The buffer holds the k-th stretch of the input, as much as there is, and brings the error
      exactly if the input ends inside it, or at its end and the reader says so at once. */
  ghost predicate IsStretch(c: Config, b: Buffer, k: nat, eager: bool) {
    var lo, hi := Begins(k), Begins(k + 1);
    && b.start == lo <= |c.input|
    && b.data == c.input[lo..if hi < |c.input| then hi else |c.input|]
    && (b.err.Some? <==> |c.input| < hi || (|c.input| == hi && eager))
  }

  lemma ReadsStretch(c: Config, s: State, a: Action)
    requires Inv(c, s) && Enabled(c, s, a) && a.ReadInput?
    ensures s.taken > 0 && Apply(c, s, a).prod.Sending?
    ensures IsStretch(c, Apply(c, s, a).prod.b, s.taken - 1, a.eager)
  {
    hide Inv, BufferLength, Line, Slots, Held;
    SoftPart(c, s);
  }

  /** In every run the k-th buffer read holds the input from where the ones before it end. */
  lemma KthBufferRead(c: Config, states: seq<State>, actions: seq<Action>, i: nat)
    requires IsRun(c, states, actions) && i < |actions| && actions[i].ReadInput?
    ensures Gets(actions[..i]) > 0 && states[i + 1].prod.Sending?
    ensures IsStretch(c, states[i + 1].prod.b, Gets(actions[..i]) - 1, actions[i].eager)
  {
    hide Enabled, Apply, Inv, IsStretch;
    RunKeepsInv(c, states, actions);
    CountsTold(c, states, actions, i);
    ReadsStretch(c, states[i], actions[i]);
  }

  /** Where in its buffer the consumer stands. */
  lemma OffsetInKth(c: Config, s: State)
    requires Inv(c, s) && s.cur.Some? && !s.abandoned
    ensures s.cur.value.start == Begins(s.returned) && s.cur.value.offset == s.at - Begins(s.returned)
  {
    hide BufferLength, Begins;
    assert Line(s)[0] == s.cur.value;
    assert IsKth(Line(s)[0], s.returned + 0);
  }

  /** A buffer that has been used up ends where the next one begins, or with the input. */
  lemma UsedUpAt(c: Config, s: State)
    requires Inv(c, s) && s.cur.Some? && !s.abandoned && s.cur.value.IsEmpty()
    ensures s.at == Begins(s.returned + 1) || s.at == |c.input|
  {
    hide BufferLength;
    assert Line(s)[0] == s.cur.value;
    assert IsKth(Line(s)[0], s.returned + 0);
    OffsetInKth(c, s);
  }

  /** The consumer's buffer is the one after those that have left. */
  lemma CurrentIsKth(c: Config, states: seq<State>, actions: seq<Action>, i: nat)
    requires IsRun(c, states, actions) && i < |states| && states[i].cur.Some? && !states[i].abandoned
    ensures states[i].cur.value.start == Begins(Spent(actions[..i])) <= states[i].at
    ensures states[i].at - states[i].cur.value.offset == states[i].cur.value.start
  {
    hide Enabled, Apply, Inv, Begins;
    RunKeepsInv(c, states, actions);
    CountsTold(c, states, actions, i);
    OffsetInKth(c, states[i]);
  }

  lemma {:induction false} MovedBySkipOnly(c: Config, states: seq<State>, actions: seq<Action>, i: nat)
    requires IsRun(c, states, actions) && i < |states|
    requires forall j :: 0 <= j < i ==> !actions[j].Move?
    ensures !states[i].moved
  {
    hide Enabled, Apply;
    if i > 0 {
      MovedBySkipOnly(c, states, actions, i - 1);
      Footprint(c, states[i - 1], actions[i - 1]);
    }
  }

  /** In every interleaving without a skip the bytes delivered are a prefix of the input, and
      all of it when the error has been recorded. */
  lemma DeliveredIsPrefix(c: Config, states: seq<State>, actions: seq<Action>, i: nat)
    requires IsRun(c, states, actions) && i < |states|
    requires forall j :: 0 <= j < i ==> !actions[j].Move?
    ensures states[i].delivered <= c.input
    ensures states[i].err.Some? ==> states[i].delivered == c.input && states[i].err.value == c.fault
  {
    hide Enabled, Apply, SoftStarted, TokensConserved, ProducerSane, Owned, InLine, Unread, ErrorKept, MissedForGood;
    RunKeepsInv(c, states, actions);
    MovedBySkipOnly(c, states, actions, i);
  }

  /** The recorded error is final: it and the bytes delivered are the same ever after. */
  lemma {:induction false} ErrorIsFinal(c: Config, states: seq<State>, actions: seq<Action>, i: nat, j: nat)
    requires IsRun(c, states, actions) && i <= j < |states| && states[i].err.Some?
    ensures states[j].err == states[i].err && states[j].delivered == states[i].delivered
    decreases j
  {
    hide Enabled, Apply, Inv;
    if i < j {
      ErrorIsFinal(c, states, actions, i, j - 1);
      RunKeepsInv(c, states, actions);
      ErrorSticks(c, states[j - 1], actions[j - 1]);
    }
  }

  /** Until Abandon begins, the tokens in the channel, with the goroutine, standing for queued
      buffers and for the current one, and owed, add up to the number of buffers. */
  lemma NoTokenLost(c: Config, states: seq<State>, actions: seq<Action>, i: nat)
    requires IsRun(c, states, actions) && i < |states|
    requires forall j :: 0 <= j < i ==> !actions[j].BeginAbandon?
    ensures Tokens(states[i]) == c.buffers
  {
    hide Enabled, Apply;
    RunKeepsInv(c, states, actions);
    NotAbandoned(c, states, actions, i);
  }

  lemma {:induction false} NotAbandoned(c: Config, states: seq<State>, actions: seq<Action>, i: nat)
    requires IsRun(c, states, actions) && i < |states|
    requires forall j :: 0 <= j < i ==> !actions[j].BeginAbandon?
    ensures !states[i].abandoned
  {
    hide Enabled, Apply;
    if i > 0 {
      NotAbandoned(c, states, actions, i - 1);
      Footprint(c, states[i - 1], actions[i - 1]);
    }
  }

  // ---- when the error is lost, told from the actions alone ---------------------------------

  /** The error was recorded from the buffer received last. */
  predicate Noted(actions: seq<Action>) {
    actions != [] &&
    match actions[|actions| - 1]
    case NoteError => true
    case Receive => false
    case _ => Noted(actions[..|actions| - 1])
  }

  /** The buffer received last was released without that. */
  predicate ReleasedUnnoted(actions: seq<Action>) {
    actions != [] &&
    match actions[|actions| - 1]
    case Release => !Noted(actions[..|actions| - 1])
    case Receive => false
    case _ => ReleasedUnnoted(actions[..|actions| - 1])
  }

  /** What the actions so far say about the consumer. */
  ghost predicate Told(s: State, actions: seq<Action>) {
    && (s.err.Some? <==> Noted(actions))
    && (s.missed ==> ReleasedUnnoted(actions))
    && (s.err.Some? || s.cur.Some? ==> !ReleasedUnnoted(actions))
  }

  lemma ToldStep(c: Config, s: State, actions: seq<Action>, a: Action)
    requires Told(s, actions) && Enabled(c, s, a) && ErrorLast(c, s) && MissedForGood(s)
    ensures Told(Apply(c, s, a), actions + [a])
  {
    var t := actions + [a];
    assert t[..|t| - 1] == actions;
    if !a.Release? && !a.Receive? && !a.NoteError? {
      CurStays(c, s, a);
    }
  }

  lemma CurStays(c: Config, s: State, a: Action)
    requires Enabled(c, s, a) && !a.Release? && !a.Receive? && !a.NoteError?
    ensures Apply(c, s, a).cur.Some? ==> s.cur.Some?
    ensures Apply(c, s, a).err == s.err && Apply(c, s, a).missed == s.missed
  {
    match a {
      case TakeToken => case Leave => case GetBuffer => case ReadInput(_) => case Send => case CloseReady =>
      case CloseExited => case PayToken => case Take(_) => case Move(_) => case StopInput => case BeginAbandon =>
      case DropCur => case DropReady => case Other(_) =>
    }
  }

  lemma {:induction false} RunTold(c: Config, states: seq<State>, actions: seq<Action>)
    requires IsRun(c, states, actions)
    ensures Told(states[|actions|], actions)
  {
    hide Enabled, Apply, Inv, Told, Noted, ReleasedUnnoted;
    if actions == [] {
      ToldAtStart(c, states[0].pool);
    } else {
      var n := |actions| - 1;
      RunTold(c, states[..n + 1], actions[..n]);
      RunKeepsInv(c, states, actions);
      ErrorParts(c, states[n]);
      ToldStep(c, states[n], actions[..n], actions[n]);
      assert states[..n + 1][n] == states[n] && actions == actions[..n] + [actions[n]];
    }
  }

  lemma ToldAtStart(c: Config, pool: P.State)
    ensures Told(Init(c, pool), [])
  {
  }

  lemma ErrorParts(c: Config, s: State)
    requires Inv(c, s)
    ensures ErrorLast(c, s) && MissedForGood(s)
  {
  }

  /** In every run that nobody stopped, once the channel is drained and closed, the consumer
      has the input's error exactly when the last buffer it received was not released before
      the error was recorded from it. */
  lemma ErrorReportedIff(c: Config, states: seq<State>, actions: seq<Action>)
    requires IsRun(c, states, actions)
    requires var s := states[|actions|]; s.cur.None? && s.ready == [] && s.readyClosed && !s.exitClosed
    ensures states[|actions|].err == Some(c.fault) <==> !ReleasedUnnoted(actions)
    ensures states[|actions|].err.None? <==> ReleasedUnnoted(actions)
  {
    hide Enabled, Apply, Noted, ReleasedUnnoted;
    RunKeepsInv(c, states, actions);
    RunTold(c, states, actions);
    DrainedUnstopped(c, states[|actions|]);
  }
}

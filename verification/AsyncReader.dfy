/** pkg/asyncreader/asyncreader.go as an object: the source's fields, its loops, and at each
    point where the goroutine, a concurrent StopBuffering or another user of the pool could
    run, a call that lets them.  Every write to the fields is one action of ReadAhead, so
    what is proved there about all runs holds here. */
module AsyncReader {
  import opened Basics
  import opened ReadAhead
  import opened ReadAheadRuns
  import P = BufferPool

  datatype Status = Good | InputError(f: Fault) | StreamAbandoned | SinkError

  /** What a sink does with one write: how much of it it takes, and whether it reports an
      error.  A Go writer that takes less than it was given says so. */
  datatype Verdict = TakesAll(fails: bool) | Takes(most: nat, fails: bool)

  datatype SinkWrite = SinkWrite(offered: nat, taken: nat, failed: bool)

  /** An error reported although every byte was taken. */
  predicate FailedWhole(x: SinkWrite) {
    x.failed && x.taken == x.offered
  }

  function Taken(v: Verdict, offered: nat): nat {
    if v.TakesAll? || v.most > offered then offered else v.most
  }

  /** Where WriteTo writes: its script says what it does with each write, its log what it did. */
  class Sink {
    const script: nat -> Verdict
    var written: Bytes
    var log: seq<SinkWrite>

    constructor (script: nat -> Verdict)
      ensures this.script == script && written == [] && log == []
    {
      this.script, written, log := script, [], [];
    }

    /** Write i went as the script says. */
    ghost predicate Follows(i: nat)
      reads this`log
    {
      i < |log| && log[i].taken == Taken(script(i), log[i].offered) && log[i].failed == (script(i).fails || log[i].taken < log[i].offered)
    }

    method Write(p: Bytes) returns (n: nat, failed: bool)
      modifies this
      ensures n == Taken(script(|old(log)|), |p|)
      ensures failed == (script(|old(log)|).fails || n < |p|)
      ensures written == old(written) + p[..n] && log == old(log) + [SinkWrite(|p|, n, failed)]
    {
      var v := script(|log|);
      n := Taken(v, |p|);
      failed := v.fails || n < |p|;
      written, log := written + p[..n], log + [SinkWrite(|p|, n, failed)];
    }
  }

  class Reader {
    const conf: Config
    const pool: P.Pool
    // whether another goroutine may call StopBuffering meanwhile
    const shared: bool

    // the goroutine and the channels
    var prod: Producer
    var size: nat
    var pos: nat
    var token: nat
    var ready: seq<Buffer>
    var readyClosed: bool
    var exitClosed: bool
    var exited: bool
    // the consumer
    var cur: Option<Buffer>
    var err: Option<Fault>
    // history
    ghost var owed: nat
    ghost var at: int
    ghost var delivered: Bytes
    ghost var moved: bool
    ghost var missed: bool
    ghost var abandoned: bool
    ghost var lost: nat
    ghost var taken: nat
    ghost var returned: nat

    ghost function Abs(): State
      reads this, pool
    {
      State(prod, size, pos, token, ready, readyClosed, exitClosed, exited, cur, err, owed,
            at, delivered, moved, missed, abandoned, lost, taken, returned, pool.Abs())
    }

    ghost predicate Valid()
      reads this, pool
    {
      && pool.bufferSize == BUFFER_SIZE && pool.poolSize == CACHE_SIZE
      && Inv(conf, Abs())
    }

    /** Between two calls: no token is owed, and after Abandon nothing is left to read. */
    ghost predicate Settled()
      reads this, pool
    {
      && Valid() && owed == 0
      && (abandoned ==> cur.None? && ready == [] && readyClosed)
    }

    /** The last buffer has been used up but its error was not recorded. */
    ghost predicate Overlooked()
      reads this
    {
      cur.Some? && cur.value.IsEmpty() && cur.value.err.Some? && err.None?
    }

    /** The last write took all of the buffer that brings the error, and still failed. */
    ghost predicate HiddenBy(log: seq<SinkWrite>)
      reads this`cur
    {
      log != [] && FailedWhole(log[|log| - 1]) && cur.Some? && cur.value.err.Some?
    }

    // ---- construction ---------------------------------------------------------------

    constructor (conf: Config, pool: P.Pool, shared: bool)
      requires conf.buffers > 0
      requires pool.Valid() && pool.bufferSize == BUFFER_SIZE && pool.poolSize == CACHE_SIZE
      ensures this.conf == conf && this.pool == pool && this.shared == shared
      ensures Settled() && Abs() == Init(conf, pool.Abs())
    {
      this.conf, this.pool, this.shared := conf, pool, shared;
      prod, size, pos := Selecting, SOFT_START, 0;
      token, ready, readyClosed, exitClosed, exited := 0, [], false, false, false;
      cur, err, owed := None, None, 0;
      at, delivered, moved, missed, abandoned := 0, [], false, false, false;
      lost, taken, returned := 0, 0, 0;
      new;
      for i := 0 to conf.buffers
        invariant token == i
        invariant Abs() == Init(conf, pool.Abs()).(token := i)
      {
        token := token + 1;
      }
      InitKeepsInv(conf, pool.Abs());
    }

    // ---- the goroutine --------------------------------------------------------------

    /** The select over token and exit; leave is its choice when both are ready. */
    method Select(leave: bool)
      requires prod.Selecting? && (exitClosed || token > 0)
      modifies this`prod, this`token
      ensures
        var a := if old(exitClosed) && (leave || old(token) == 0) then Leave else TakeToken;
        Enabled(conf, old(Abs()), a) && Abs() == Apply(conf, old(Abs()), a)
      ensures if old(exitClosed) && (leave || old(token) == 0) then prod.Closing? && token == old(token)
              else prod.Granted? && token == old(token) - 1
    {
      if exitClosed && (leave || token == 0) {
        prod := Closing;
      } else {
        token := token - 1;
        prod := Granted;
      }
    }

    /** getBuffer, and the soft start's shortening of it. */
    method TakeBuffer()
      requires pool.Valid() && pool.Conf() == PoolConfig
      requires Enabled(conf, Abs(), GetBuffer)
      modifies this`prod, this`size, this`taken, pool
      ensures Abs() == Apply(conf, old(Abs()), GetBuffer)
      ensures size == if old(size) < BUFFER_SIZE then 2 * old(size) else old(size)
      ensures prod.Filling? && (old(size) < BUFFER_SIZE ==> prod.buf.len == old(size))
    {
      hide P.Got, P.AfterGet, P.Inv, Held;
      var _, buf := pool.TryGet(false);
      if size < BUFFER_SIZE {
        buf := buf.Reslice(0, size);
        size := 2 * size;
      }
      taken := taken + 1;
      prod := Filling(buf);
    }

    /** b.read: eager is the wrapped reader's choice of reporting its error together with
        the last byte. */
    method ReadIn(eager: bool)
      requires Enabled(conf, Abs(), ReadInput(eager))
      modifies this`prod, this`pos
      ensures Abs() == Apply(conf, old(Abs()), ReadInput(eager))
    {
      var b := Filled(conf, pos, prod.buf, eager);
      pos := pos + |b.data|;
      prod := Sending(b);
    }

    method SendBuffer()
      requires Enabled(conf, Abs(), Send)
      modifies this`prod, this`ready
      ensures Abs() == Apply(conf, old(Abs()), Send)
      ensures ready == old(ready) + [old(prod).b] && prod == if old(prod).b.err.Some? then Closing else Selecting
    {
      var b := prod.b;
      ready := ready + [b];
      prod := if b.err.Some? then Closing else Selecting;
    }

    /** The deferred calls: ready is closed first, then exited. */
    method RunDeferred()
      requires prod.Closing? || prod.Signalling?
      modifies this`prod, this`readyClosed, this`exited
      ensures
        var a := if old(prod).Closing? then CloseReady else CloseExited;
        Enabled(conf, old(Abs()), a) && Abs() == Apply(conf, old(Abs()), a)
    {
      if prod.Closing? {
        readyClosed := true;
        prod := Signalling;
      } else {
        exited := true;
        prod := Gone;
      }
    }

    /** One turn of the goroutine's loop body, whichever part of it is next. */
    method TakeTurn(leave: bool, eager: bool) returns (ghost a: Action)
      requires Valid() && ProducerCanStep(conf, Abs())
      modifies this, pool
      ensures IsProducer(a) && Enabled(conf, old(Abs()), a) && Abs() == Apply(conf, old(Abs()), a)
    {
      NextTurn(conf, Abs(), eager);
      hide Inv, Enabled, Apply, ProducerCanStep;
      if prod.Selecting? {
        a := if exitClosed && (leave || token == 0) then Leave else TakeToken;
        Select(leave);
      } else if prod.Granted? {
        a := GetBuffer;
        TakeBuffer();
      } else if prod.Filling? {
        a := ReadInput(eager);
        ReadIn(eager);
      } else if prod.Sending? {
        a := Send;
        SendBuffer();
      } else {
        a := if prod.Closing? then CloseReady else CloseExited;
        RunDeferred();
      }
    }

    method GoroutineStep(leave: bool, eager: bool)
      requires Valid() && ProducerCanStep(conf, Abs())
      modifies this, pool
      ensures Valid() && Rely(old(Abs()), Abs()) && Fuel(Abs()) < Fuel(old(Abs()))
      ensures exitClosed == old(exitClosed)
    {
      ghost var s := Abs();
      ghost var a := TakeTurn(leave, eager);
      hide Inv, Enabled, Apply, Rely, Fuel;
      StepKeepsInv(conf, s, a);
      EnvironmentRelies(conf, s, a);
      FuelBurns(conf, s, a);
    }

    /** One step of whoever else is there: the goroutine, if it can step, a concurrent
        StopBuffering that closes exit, or another user of the pool. */
    method EnvironmentStep(leave: bool, eager: bool)
      requires Valid()
      modifies this, pool
      ensures Valid() && Rely(old(Abs()), Abs()) && (!shared ==> exitClosed == old(exitClosed))
    {
      hide Inv, Enabled, Apply, Rely, Fuel;
      ghost var s := Abs();
      ProducerStuckIff(conf, s);
      var who: nat := *;
      if who == 0 && !prod.Gone? && (prod.Selecting? ==> token > 0 || exitClosed) {
        GoroutineStep(leave, eager);
      } else if who == 1 && !exitClosed && shared {
        CloseExit();
        EnvironmentRelies(conf, s, StopInput);
      } else if who == 2 {
        OtherClientGets();
      } else {
        OtherClientsFlush();
      }
    }

    method OtherClientGets()
      requires Valid()
      modifies pool
      ensures Valid() && Rely(old(Abs()), Abs())
    {
      hide Inv, Rely, P.Inv, P.AfterGet, P.Got;
      ghost var s := Abs();
      PoolInv(conf, s);
      assert Enabled(conf, s, Other(P.Get));
      StepKeepsInv(conf, s, Other(P.Get));
      EnvironmentRelies(conf, s, Other(P.Get));
      var _, _ := pool.TryGet(false);
      assert Abs() == Apply(conf, s, Other(P.Get));
    }

    method OtherClientsFlush()
      requires Valid()
      modifies pool
      ensures Valid() && Rely(old(Abs()), Abs())
    {
      hide Inv, Rely, P.Inv, P.AfterFlush;
      ghost var s := Abs();
      PoolInv(conf, s);
      assert Enabled(conf, s, Other(P.Event.Flush));
      StepKeepsInv(conf, s, Other(P.Event.Flush));
      EnvironmentRelies(conf, s, Other(P.Event.Flush));
      pool.Flush();
      assert Abs() == Apply(conf, s, Other(P.Event.Flush));
    }

    /** Whatever happens while the consumer is between two actions: any number of such steps.
        Callers know only the contract, which every environment action obeys
        (EnvironmentRelies), those not chosen here included. */
    method Interfere()
      requires Valid()
      modifies this, pool
      ensures Valid() && Rely(old(Abs()), Abs()) && (!shared ==> exitClosed == old(exitClosed))
    {
      hide Inv, Rely;
      ghost var s := Abs();
      RelyNothing(s);
      var steps: nat := *;
      while steps > 0
        invariant Valid() && Rely(s, Abs()) && (!shared ==> exitClosed == old(exitClosed))
      {
        ghost var before := Abs();
        var leave: bool := *;
        var eager: bool := *;
        EnvironmentStep(leave, eager);
        RelyComposes(s, before, Abs());
        steps := steps - 1;
      }
    }

    // ---- the consumer's single actions ----------------------------------------------

    /** putBuffer: the whole array goes back to the pool. */
    method PutBuffer(b: Buffer)
      requires pool.Valid() && pool.Conf() == PoolConfig && !P.PutPanics(PoolConfig, b.buf)
      modifies this`returned, pool
      ensures Abs() == PutBack(old(Abs()), b)
    {
      hide P.AfterPut, P.Inv;
      var _ := pool.Put(b.buf);
      returned := returned + 1;
    }

    /** The used-up buffer is put back and its token is owed. */
    method DetachCur()
      requires pool.Valid() && pool.Conf() == PoolConfig
      requires cur.Some? && cur.value.IsEmpty() && !abandoned && !P.PutPanics(PoolConfig, cur.value.buf)
      modifies this`cur, this`owed, this`missed, this`returned, pool
      ensures Enabled(conf, old(Abs()), Release) && Abs() == Apply(conf, old(Abs()), Release)
      ensures cur.None? && owed == old(owed) + 1 && missed == (old(missed) || old(Overlooked()))
    {
      hide P.AfterPut, P.Inv, Enabled, Apply, Held, P.PutPanics;
      DoRelease(conf, Abs());
      PutBuffer(cur.value);
      missed := missed || (cur.value.err.Some? && err.None?);
      cur, owed := None, owed + 1;
    }

    method ReleaseCur()
      requires Valid() && cur.Some? && cur.value.IsEmpty() && !abandoned
      modifies this`cur, this`owed, this`missed, this`returned, pool
      ensures cur.None? && owed == old(owed) + 1 && missed == (old(missed) || old(Overlooked()))
      ensures Valid() && Enabled(conf, old(Abs()), Release) && Abs() == Apply(conf, old(Abs()), Release)
    {
      hide Inv, Apply, Enabled;
      ghost var s := Abs();
      NothingBlocks(conf, s);
      PoolInv(conf, s);
      DetachCur();
      StepKeepsInv(conf, s, Release);
    }

    method SendToken()
      requires Valid() && owed > 0
      modifies this`token, this`owed
      ensures token == old(token) + 1 && owed == old(owed) - 1
      ensures Valid() && Enabled(conf, old(Abs()), PayToken) && Abs() == Apply(conf, old(Abs()), PayToken)
    {
      hide Inv;
      ghost var s := Abs();
      NothingBlocks(conf, s);
      StepKeepsInv(conf, s, PayToken);
      token, owed := token + 1, owed - 1;
      assert Abs() == Apply(conf, s, PayToken);
    }

    method ReceiveNext()
      requires Valid() && cur.None? && ready != [] && !abandoned
      modifies this`cur, this`ready
      ensures cur == Some(old(ready)[0]) && ready == old(ready)[1..]
      ensures Valid() && Enabled(conf, old(Abs()), Receive) && Abs() == Apply(conf, old(Abs()), Receive)
    {
      hide Inv;
      ghost var s := Abs();
      StepKeepsInv(conf, s, Receive);
      cur, ready := Some(ready[0]), ready[1..];
      assert Abs() == Apply(conf, s, Receive);
    }

    /** increment(n), after n bytes were handed over. */
    method Deliver(n: nat)
      requires Valid() && cur.Some? && n <= cur.value.Left() && !abandoned
      modifies this`cur, this`at, this`delivered
      ensures cur == Some(old(cur.value).(offset := old(cur.value.offset) + n)) && at == old(at) + n
      ensures delivered == old(delivered) + old(cur.value.data[cur.value.offset..cur.value.offset + n])
      ensures Valid() && Enabled(conf, old(Abs()), Take(n)) && Abs() == Apply(conf, old(Abs()), Take(n))
    {
      hide Inv, Enabled, Apply;
      ghost var s := Abs();
      DoTake(conf, s, n);
      StepKeepsInv(conf, s, Take(n));
      var b := cur.value;
      cur := Some(b.(offset := b.offset + n));
      at, delivered := at + n, delivered + b.data[b.offset..b.offset + n];
      assert Abs() == Apply(conf, s, Take(n));
    }

    /** increment(k) for a skip, in either direction. */
    method Reposition(k: int)
      requires Valid() && cur.Some? && err.None? && 0 <= cur.value.offset + k && k <= cur.value.Left() && !abandoned
      modifies this`cur, this`at, this`moved
      ensures cur == Some(old(cur.value).(offset := old(cur.value.offset) + k)) && at == old(at) + k
      ensures moved == (old(moved) || k != 0)
      ensures Valid() && Enabled(conf, old(Abs()), Move(k)) && Abs() == Apply(conf, old(Abs()), Move(k))
    {
      hide Inv, Enabled, Apply;
      ghost var s := Abs();
      DoMove(conf, s, k);
      StepKeepsInv(conf, s, Move(k));
      var b := cur.value;
      cur := Some(b.(offset := b.offset + k));
      at, moved := at + k, moved || k != 0;
      assert Abs() == Apply(conf, s, Move(k));
    }

    method RecordError()
      requires Valid() && cur.Some? && cur.value.IsEmpty() && cur.value.err.Some? && !abandoned
      modifies this`err
      ensures err == cur.value.err
      ensures Valid() && Enabled(conf, old(Abs()), NoteError) && Abs() == Apply(conf, old(Abs()), NoteError)
    {
      hide Inv;
      ghost var s := Abs();
      StepKeepsInv(conf, s, NoteError);
      err := cur.value.err;
      assert Abs() == Apply(conf, s, NoteError);
    }

    method CloseExit()
      requires Valid() && !exitClosed
      modifies this`exitClosed
      ensures exitClosed
      ensures Valid() && Enabled(conf, old(Abs()), StopInput) && Abs() == Apply(conf, old(Abs()), StopInput)
    {
      hide Inv;
      ghost var s := Abs();
      StepKeepsInv(conf, s, StopInput);
      exitClosed := true;
      assert Abs() == Apply(conf, s, StopInput);
    }

    /** Abandon has the mutex: what is still owed will not be paid. */
    ghost method Forfeit()
      requires Valid() && exitClosed
      modifies this`abandoned, this`lost, this`owed
      ensures abandoned && owed == 0
      ensures Valid() && Enabled(conf, old(Abs()), BeginAbandon) && Abs() == Apply(conf, old(Abs()), BeginAbandon)
    {
      hide Inv, Enabled, Apply;
      var s := Abs();
      DoBeginAbandon(conf, s);
      StepKeepsInv(conf, s, BeginAbandon);
      abandoned, lost, owed := true, lost + owed, 0;
      assert Abs() == Apply(conf, s, BeginAbandon);
    }

    method DropCurrent()
      requires Valid() && abandoned && cur.Some?
      modifies this`cur, this`lost, this`returned, pool
      ensures cur.None?
      ensures Valid() && Enabled(conf, old(Abs()), DropCur) && Abs() == Apply(conf, old(Abs()), DropCur)
    {
      hide Inv, P.AfterPut, P.Inv, Enabled, Apply, Held;
      ghost var s := Abs();
      NothingBlocks(conf, s);
      DoDropCur(conf, s);
      StepKeepsInv(conf, s, DropCur);
      PoolInv(conf, s);
      PutBuffer(cur.value);
      cur, lost := None, lost + 1;
      assert Abs() == Apply(conf, s, DropCur);
    }

    method DropNext()
      requires Valid() && abandoned && cur.None? && ready != []
      modifies this`ready, this`lost, this`returned, pool
      ensures ready == old(ready)[1..]
      ensures Valid() && Enabled(conf, old(Abs()), DropReady) && Abs() == Apply(conf, old(Abs()), DropReady)
    {
      hide Inv, P.AfterPut, P.Inv, Enabled, Apply, Held;
      ghost var s := Abs();
      NothingBlocks(conf, s);
      DoDropReady(conf, s);
      StepKeepsInv(conf, s, DropReady);
      PoolInv(conf, s);
      PutBuffer(ready[0]);
      ready, lost := ready[1..], lost + 1;
      assert Abs() == Apply(conf, s, DropReady);
    }

    // ---- the methods ------------------------------------------------------------------

    /** b, ok := <-ready: waits while nothing is there and the channel is open.  The wait is
        over after finitely many turns of the goroutine, whatever else happens. */
    method AwaitReady()
      requires Valid() && ((cur.None? && owed == 0) || exitClosed)
      modifies this, pool
      ensures Valid() && Rely(old(Abs()), Abs()) && (!shared ==> exitClosed == old(exitClosed))
      ensures ready != [] || readyClosed
    {
      ghost var s := Abs();
      while ready == [] && !readyClosed
        invariant Valid() && Rely(s, Abs()) && (!shared ==> exitClosed == old(exitClosed))
        decreases if ready == [] && !readyClosed then 1 + Fuel(Abs()) else 0
      {
        ghost var before := Abs();
        AwaitOnce();
        RelyComposes(s, before, Abs());
      }
    }

    method AwaitOnce()
      requires Valid() && ((cur.None? && owed == 0) || exitClosed) && ready == [] && !readyClosed
      modifies this, pool
      ensures Valid() && Rely(old(Abs()), Abs()) && (!shared ==> exitClosed == old(exitClosed))
      ensures Fuel(Abs()) < Fuel(old(Abs())) || ready != [] || readyClosed
    {
      hide Inv, Fuel, ProducerCanStep;
      ghost var s := Abs();
      Interfere();
      if ready == [] && !readyClosed {
        ghost var t := Abs();
        WaitsEnd(conf, t);
        ClosedWhenGone(conf, t);
        var leave: bool := *;
        var eager: bool := *;
        GoroutineStep(leave, eager);
        RelyComposes(s, t, Abs());
      }
    }

    /** Puts a used-up buffer back and returns its token. */
    method Recycle()
      requires Settled() && (cur.Some? ==> cur.value.IsEmpty())
      modifies this, pool
      ensures Settled() && cur.None?
      ensures at == old(at) && delivered == old(delivered) && moved == old(moved) && err == old(err)
      ensures abandoned == old(abandoned) && missed == (old(missed) || old(Overlooked()))
      ensures Returning(old(prod)) ==> Returning(prod) && ready == old(ready)
      ensures !shared ==> exitClosed == old(exitClosed)
    {
      hide Inv, Apply, Enabled, Fuel;
      UsedUp(conf, Abs());
      if cur.Some? {
        ReleaseCur();
        Interfere();
        SendToken();
      }
    }

    /** b, ok := <-ready, and cur = b. */
    method FetchNext() returns (ok: bool)
      requires Settled() && cur.None?
      modifies this, pool
      ensures Settled()
      ensures at == old(at) && delivered == old(delivered) && moved == old(moved) && err == old(err)
      ensures missed == old(missed) && abandoned == old(abandoned)
      ensures ok ==> cur.Some? && !abandoned && (cur.value.IsEmpty() ==> cur.value.err.Some?)
      ensures !ok ==> cur.None? && ready == [] && readyClosed && (err.Some? || missed || exitClosed)
      ensures Returning(old(prod)) && old(ready) == [] ==> !ok
      ensures !shared ==> exitClosed == old(exitClosed)
    {
      hide Inv, Apply, Enabled, Fuel;
      UsedUp(conf, Abs());
      AwaitReady();
      ok := ready != [];
      if ok {
        NextBuffer(conf, Abs());
        ReceiveNext();
      } else {
        DrainedBecause(conf, Abs());
      }
    }

    /** Makes sure there is a buffer to serve: one with bytes left, or the one that brings
        the error.  Fails only on a drained, closed channel. */
    method Fill() returns (st: Status)
      requires Settled()
      modifies this, pool
      ensures Settled()
      ensures at == old(at) && delivered == old(delivered) && moved == old(moved) && err == old(err)
      ensures missed == (old(missed) || old(Overlooked()))
      ensures old(cur.Some? && !cur.value.IsEmpty()) ==> st.Good? && cur == old(cur)
      ensures st.Good? ==> cur.Some? && !abandoned && (cur.value.IsEmpty() ==> cur.value.err.Some?)
      ensures !st.Good? ==> cur.None? && ready == [] && readyClosed
      ensures !st.Good? ==> st == if err.None? then StreamAbandoned else InputError(err.value)
      ensures st.StreamAbandoned? ==> exitClosed || missed
      ensures old(err).Some? || old(Overlooked()) ==> !st.Good?
      ensures !shared ==> exitClosed == old(exitClosed)
    {
      hide Inv, Apply, Enabled, Fuel;
      UsedUp(conf, Abs());
      Interfere();
      if cur.None? || cur.value.IsEmpty() {
        Recycle();
        var ok := FetchNext();
        if !ok {
          return if err.None? then StreamAbandoned else InputError(err.value);
        }
      }
      return Good;
    }

    /** increment(n) on bytes just handed over: they are the input from the position on. */
    method HandOver(n: nat)
      requires Settled() && cur.Some? && n <= cur.value.Left() && !abandoned
      modifies this`cur, this`at, this`delivered
      ensures Settled() && cur == Some(old(cur.value).(offset := old(cur.value.offset) + n))
      ensures 0 <= old(at) && at == old(at) + n && at <= |conf.input|
      ensures old(cur.value.data[cur.value.offset..cur.value.offset + n]) == conf.input[old(at)..at]
      ensures delivered == old(delivered) + conf.input[old(at)..at]
    {
      hide Inv, Apply, Enabled, Fuel;
      CurrentBuffer(conf, Abs());
      ghost var s, b := Abs(), cur.value;
      TakeIsInput(conf, s, n);
      Deliver(n);
    }

    /** At the end of a buffer its error, if any, becomes the reader's. */
    method NoteEnd()
      requires Settled() && cur.Some? && !abandoned && err.None?
      modifies this`err
      ensures Settled() && !Overlooked()
      ensures err == if cur.value.IsEmpty() then cur.value.err else None
      ensures err.Some? ==> err.value == conf.fault && at == |conf.input|
    {
      hide Inv, Apply, Enabled, Fuel;
      if cur.value.IsEmpty() && cur.value.err.Some? {
        RecordError();
      }
      ErrorMeans(conf, Abs());
    }

    /** copy(p, b.buffer()). */
    static method CopyOut(p: array<byte>, b: Buffer) returns (n: nat)
      requires b.offset <= |b.data|
      modifies p
      ensures n <= p.Length && n <= b.Left() && (n == p.Length || n == b.Left())
      ensures p[..n] == b.data[b.offset..b.offset + n]
      ensures p[n..] == old(p[n..])
    {
      n := if p.Length < b.Left() then p.Length else b.Left();
      forall i | 0 <= i < n {
        p[i] := b.data[b.offset + i];
      }
    }

    /** The second half of Read: serve the current buffer. */
    method Serve(p: array<byte>) returns (n: nat, st: Status)
      requires Settled() && cur.Some? && !abandoned && err.None?
      modifies this`cur, this`at, this`delivered, this`err, p
      ensures Settled() && !Overlooked()
      ensures 0 <= old(at) && n <= p.Length && at == old(at) + n && at <= |conf.input|
      ensures p[..n] == conf.input[old(at)..at] && p[n..] == old(p[..])[n..]
      ensures delivered == old(delivered) + p[..n]
      ensures p.Length > 0 && !old(cur.value.IsEmpty()) ==> n > 0
      ensures n == p.Length || at == Begins(returned + 1) || at == |conf.input|
      ensures old(cur.value.IsEmpty() && cur.value.err.Some?) ==> !st.Good?
      ensures st == if err.Some? then InputError(err.value) else Good
      ensures err.Some? ==> err.value == conf.fault && at == |conf.input|
    {
      hide Inv, Apply, Enabled, Fuel, Rely, Begins;
      CurrentBuffer(conf, Abs());
      n := CopyOut(p, cur.value);
      HandOver(n);
      if n < p.Length {
        UsedUpAt(conf, Abs());
      }
      NoteEnd();
      st := if err.Some? then InputError(err.value) else Good;
    }

    /** Read.  The caller gets the input from the reader's position on, as much of the
        current buffer as fits; the input's error comes only after the last byte, and from
        then on again and again. */
    method Read(p: array<byte>) returns (n: nat, st: Status)
      requires Settled()
      modifies this, pool, p
      ensures Settled() && !Overlooked()
      ensures 0 <= old(at) && n <= p.Length && at == old(at) + n && at <= |conf.input|
      ensures p[..n] == conf.input[old(at)..at] && p[n..] == old(p[..])[n..]
      ensures delivered == old(delivered) + p[..n] && moved == old(moved)
      ensures st.Good? && p.Length > 0 ==> n > 0
      ensures st.Good? ==> n == p.Length || at == Begins(returned + 1) || at == |conf.input|
      ensures st.InputError? <==> err.Some?
      ensures st.InputError? ==> st.f == conf.fault && at == |conf.input|
      ensures old(err).Some? ==> n == 0 && st.InputError? && st.f == old(err).value
      ensures st.StreamAbandoned? ==> n == 0 && (exitClosed || missed)
      ensures missed == (old(missed) || old(Overlooked()))
      ensures old(Overlooked()) ==> st.StreamAbandoned?
      ensures !st.SinkError?
      ensures !shared ==> exitClosed == old(exitClosed)
    {
      hide Inv, Apply, Enabled, Fuel, Rely, Begins;
      PositionInRange(conf, Abs());
      st := Fill();
      if !st.Good? {
        ErrorMeans(conf, Abs());
        return 0, st;
      }
      n, st := Serve(p);
    }

    /** One write of the whole current buffer.  Unless the sink fails, it is used up. */
    method WriteChunk(w: Sink) returns (n: nat, failed: bool)
      requires Settled() && cur.Some? && !abandoned && err.None?
      requires w as object != this && w as object != pool
      modifies this`cur, this`at, this`delivered, w
      ensures Settled() && cur.Some? && cur.value.err == old(cur.value.err)
      ensures 0 <= old(at) && at == old(at) + n && at <= |conf.input|
      ensures w.written == old(w.written) + conf.input[old(at)..at]
      ensures delivered == old(delivered) + conf.input[old(at)..at]
      ensures w.log == old(w.log) + [SinkWrite(old(cur.value.Left()), n, failed)]
      ensures n == Taken(w.script(|old(w.log)|), old(cur.value.Left()))
      ensures failed == (w.script(|old(w.log)|).fails || n < old(cur.value.Left()))
      ensures cur.value.IsEmpty() <==> n == old(cur.value.Left())
      ensures Overlooked() ==> at == |conf.input|
    {
      hide Inv, Apply, Enabled, Fuel;
      CurrentBuffer(conf, Abs());
      var b := cur.value;
      n, failed := w.Write(b.data[b.offset..]);
      assert b.data[b.offset..][..n] == b.data[b.offset..b.offset + n];
      HandOver(n);
      if cur.value.err.Some? {
        LastBuffer(conf, Abs());
      }
    }

    /** The rest of the pass, with a buffer to write. */
    method WriteFilled(w: Sink) returns (n: nat, st: Status, again: bool)
      requires Settled() && cur.Some? && !abandoned && err.None? && (cur.value.IsEmpty() ==> cur.value.err.Some?)
      requires w as object != this && w as object != pool
      modifies this`cur, this`at, this`delivered, this`err, w
      ensures Settled()
      ensures 0 <= old(at) && at == old(at) + n && at <= |conf.input|
      ensures w.written == old(w.written) + conf.input[old(at)..at]
      ensures delivered == old(delivered) + conf.input[old(at)..at]
      ensures again ==> n > 0 && err.None? && !Overlooked()
      ensures !again && st.Good? ==> conf.fault.EOF? && at == |conf.input| && err.Some?
      ensures !again && st.InputError? ==> st.f == conf.fault && at == |conf.input| && !conf.fault.EOF? && err.Some?
      ensures !st.StreamAbandoned?
      ensures |w.log| == |old(w.log)| + 1 && old(w.log) <= w.log && w.Follows(|old(w.log)|) && n == w.log[|old(w.log)|].taken
      ensures w.log[|w.log| - 1].failed <==> !again && st.SinkError?
      ensures Overlooked() <==> !again && st.SinkError? && HiddenBy(w.log)
      ensures Overlooked() ==> at == |conf.input|
      ensures st.SinkError? && n == 0 && FailedWhole(w.log[|w.log| - 1]) ==> Overlooked()
      ensures st.SinkError? ==> err.None?
    {
      hide Inv, Apply, Enabled, Fuel, Rely;
      var failed;
      n, failed := WriteChunk(w);
      again := false;
      if failed {
        return n, SinkError, false;
      }
      NoteEnd();
      if err == Some(EOF) {
        return n, Good, false;
      }
      if err.Some? {
        return n, InputError(err.value), false;
      }
      again, st := true, Good;
    }

    /** One pass of WriteTo's loop; again means neither the input nor the sink is done. */
    method WriteTurn(w: Sink) returns (n: nat, st: Status, again: bool, ghost wrote: bool)
      requires Settled() && w as object != this && w as object != pool
      modifies this, pool, w
      ensures Settled()
      ensures 0 <= old(at) && at == old(at) + n && at <= |conf.input|
      ensures w.written == old(w.written) + conf.input[old(at)..at]
      ensures delivered == old(delivered) + conf.input[old(at)..at] && moved == old(moved)
      ensures missed == (old(missed) || old(Overlooked()))
      ensures again ==> n > 0 && err.None? && !Overlooked() && old(err).None? && !old(Overlooked())
      ensures !again && st.Good? ==> conf.fault.EOF? && at == |conf.input| && err.Some?
      ensures !again && st.InputError? ==> st.f == conf.fault && at == |conf.input| && !conf.fault.EOF? && err.Some?
      ensures !again && st.StreamAbandoned? ==> exitClosed || missed
      ensures old(err).Some? ==> n == 0 && !again && st == if conf.fault.EOF? then Good else InputError(conf.fault)
      ensures old(Overlooked()) ==> n == 0 && !again && st.StreamAbandoned?
      ensures wrote <==> old(err).None? && (again || !st.StreamAbandoned?)
      ensures !wrote ==> w.log == old(w.log) && n == 0 && err == old(err)
      ensures wrote ==> |w.log| == |old(w.log)| + 1 && old(w.log) <= w.log && w.Follows(|old(w.log)|) && n == w.log[|old(w.log)|].taken
      ensures wrote ==> (w.log[|w.log| - 1].failed <==> !again && st.SinkError?)
      ensures !wrote ==> !again && !st.SinkError?
      ensures Overlooked() <==> !again && st.SinkError? && HiddenBy(w.log)
      ensures Overlooked() ==> at == |conf.input|
      ensures st.SinkError? && n == 0 && FailedWhole(w.log[|w.log| - 1]) ==> Overlooked()
      ensures st.SinkError? ==> err.None?
      ensures !shared ==> exitClosed == old(exitClosed)
    {
      hide Inv, Apply, Enabled, Fuel, Rely;
      PositionInRange(conf, Abs());
      ErrorMeans(conf, Abs());
      again, n, wrote := false, 0, false;
      st := Fill();
      if st == InputError(EOF) {
        ErrorMeans(conf, Abs());
        return 0, Good, false, false;
      }
      if !st.Good? {
        ErrorMeans(conf, Abs());
        return;
      }
      wrote := true;
      n, st, again := WriteFilled(w);
    }

    /** WriteTo.  The sink gets the input from the reader's position on; success means all of
        it.  It ends with the sink's error exactly when the last write failed, and the input's
        error is then left unrecorded exactly when that write took all of the buffer that
        brings it: a sink that fails only on short writes never hides it. */
    method WriteTo(w: Sink) returns (n: nat, st: Status)
      requires Settled() && w as object != this && w as object != pool
      modifies this, pool, w
      ensures Settled()
      ensures 0 <= old(at) && at == old(at) + n && at <= |conf.input|
      ensures w.written == old(w.written) + conf.input[old(at)..at]
      ensures delivered == old(delivered) + conf.input[old(at)..at] && moved == old(moved)
      ensures st.Good? ==> conf.fault.EOF? && at == |conf.input| && err.Some?
      ensures st.InputError? ==> st.f == conf.fault && at == |conf.input| && !conf.fault.EOF? && err.Some?
      ensures old(err).Some? ==> n == 0 && st == if conf.fault.EOF? then Good else InputError(conf.fault)
      ensures st.StreamAbandoned? ==> exitClosed || missed
      ensures missed == (old(missed) || old(Overlooked()))
      ensures old(Overlooked()) ==> n == 0 && st.StreamAbandoned?
      ensures old(w.log) <= w.log
      ensures st.SinkError? <==> |w.log| > |old(w.log)| && w.log[|w.log| - 1].failed
      ensures forall i :: |old(w.log)| <= i < |w.log| - 1 ==> !w.log[i].failed
      ensures forall i :: |old(w.log)| <= i < |w.log| ==> w.Follows(i)
      ensures Overlooked() <==> st.SinkError? && HiddenBy(w.log)
      ensures Overlooked() ==> at == |conf.input|
      ensures st.SinkError? ==> err.None?
      ensures st.SinkError? && n == 0 && FailedWhole(w.log[|w.log| - 1]) ==> Overlooked()
      ensures old(err).None? && !st.StreamAbandoned? ==> |w.log| > |old(w.log)|
      ensures old(Overlooked()) ==> w.log == old(w.log) && err.None?
      ensures !shared ==> exitClosed == old(exitClosed)
    {
      hide Inv, Apply, Enabled, Fuel, Rely, Taken;
      PositionInRange(conf, Abs());
      n := 0;
      while true
        invariant Settled()
        invariant 0 <= old(at) && at == old(at) + n && at <= |conf.input|
        invariant w.written == old(w.written) + conf.input[old(at)..at]
        invariant delivered == old(delivered) + conf.input[old(at)..at] && moved == old(moved)
        invariant err == old(err) && Overlooked() == old(Overlooked()) && missed == old(missed)
        invariant err.Some? || Overlooked() ==> n == 0
        invariant |w.log| > |old(w.log)| ==> err.None? && !Overlooked()
        invariant |w.log| == |old(w.log)| ==> n == 0
        invariant old(w.log) <= w.log
        invariant forall i :: |old(w.log)| <= i < |w.log| ==> w.Follows(i) && !w.log[i].failed
        invariant !shared ==> exitClosed == old(exitClosed)
        decreases |conf.input| - at
      {
        ghost var mid := at;
        var n2, st2, again;
        ghost var wrote;
        n2, st2, again, wrote := WriteTurn(w);
        assert conf.input[old(at)..mid] + conf.input[mid..at] == conf.input[old(at)..at];
        n, st := n + n2, st2;
        if !again {
          return;
        }
      }
    }

    // ---- skipping and shutting down -----------------------------------------------------

    /** SkipBytes up to the deferred Abandon: moves within the current buffer, or onward over
        buffers that are already there.  Onward it succeeds if something was ahead and skip
        reached no further than what had been sent, unless the early test sends it away. */
    method TrySkip(skip: int) returns (ok: bool)
      requires Settled()
      modifies this, pool
      ensures Valid() && delivered == old(delivered)
      ensures ok ==> Settled() && at == old(at) + skip && !abandoned && lost == old(lost)
      ensures skip < 0 ==> (ok <==> old(err.None? && cur.Some? && cur.value.offset + skip >= 0))
      ensures old(cur.Some?) ==> old(cur.value.offset) == old(at) - Begins(old(returned))
      ensures skip >= 0 && skip < (|old(ready)| + 1) * BUFFER_SIZE && old(err.None? && SentAhead(skip)) ==> ok
      ensures missed == (old(missed) || (0 <= skip < BUFFER_SIZE && old(Overlooked())))
      ensures ok ==> !Overlooked()
      ensures old(err).Some? ==> !ok && err == old(err)
      ensures !shared ==> exitClosed == old(exitClosed)
    {
      hide Inv, Apply, Enabled, Fuel, Begins;
      if cur.Some? {
        OffsetInKth(conf, Abs());
      }
      if err.Some? {
        return false;
      }
      if skip < 0 {
        if cur.Some? && cur.value.offset + skip >= 0 {
          CurrentBuffer(conf, Abs());
          Reposition(skip);
          return true;
        }
        return false;
      }
      UsedUp(conf, Abs());
      Interfere();
      if skip >= (|ready| + 1) * BUFFER_SIZE {
        if !abandoned {
          AheadBound(conf, Abs());
        }
        return false;
      }
      ok := SkipOnward(skip);
    }

    /** Something has been sent that the consumer has not passed, and skip reaches no further
        than what has been sent. */
    ghost predicate SentAhead(skip: int)
      reads this, pool
    {
      !abandoned && at < Sent(Abs()) && at + skip <= Sent(Abs())
    }

    /** The loop under the lock.  It never waits: an empty ready ends it. */
    method SkipOnward(skip: nat) returns (ok: bool)
      requires Settled() && err.None?
      modifies this, pool
      ensures Valid() && delivered == old(delivered)
      ensures ok ==> Settled() && at == old(at) + skip && !abandoned && lost == old(lost)
      ensures old(SentAhead(skip)) ==> ok
      ensures missed == (old(missed) || old(Overlooked())) && !Overlooked()
      ensures !shared ==> exitClosed == old(exitClosed)
    {
      hide Inv, Apply, Enabled, Fuel, Sent;
      var left: nat, refillTokens: nat := skip, 0;
      while true
        invariant Valid() && owed == refillTokens && err.None? && delivered == old(delivered)
        invariant at == old(at) + skip - left && lost == old(lost) && (left > 0 || at == old(at))
        invariant abandoned == old(abandoned) && (abandoned ==> cur.None? && ready == [] && readyClosed)
        invariant Sent(Abs()) >= old(Sent(Abs()))
        invariant missed || Overlooked() <==> old(missed || Overlooked())
        invariant !shared ==> exitClosed == old(exitClosed)
        decreases left
      {
        var got, freed := SkipFetch();
        refillTokens := refillTokens + freed;
        if !got {
          return false;
        }
        left := Advance(left);
        if left == 0 {
          RefillTokens(refillTokens);
          if cur.value.IsEmpty() && cur.value.err.Some? {
            RecordError();
          }
          return true;
        }
        if cur.value.err.Some? {
          RecordError();
          return false;
        }
      }
    }

    /** increment(n) for as much of the skip as the current buffer holds; what is left. */
    method Advance(skip: nat) returns (left: nat)
      requires Valid() && cur.Some? && err.None? && !abandoned && cur.value.Left() >= 0
      requires cur.value.IsEmpty() ==> cur.value.err.Some?
      modifies this`cur, this`at, this`moved
      ensures Valid() && cur.Some? && cur.value.err == old(cur.value.err) && at == old(at) + skip - left
      ensures Sent(Abs()) == old(Sent(Abs())) && at <= Sent(Abs())
      ensures left <= skip && (left > 0 ==> cur.value.IsEmpty())
      ensures left > 0 && cur.value.err.Some? ==> at == Sent(Abs())
      ensures left > 0 && cur.value.err.None? ==> left < skip
    {
      hide Inv, Apply, Enabled, Fuel;
      var n: nat := if cur.value.Left() > skip then skip else cur.value.Left();
      Reposition(n);
      left := skip - n;
      AheadBound(conf, Abs());
      if cur.value.err.Some? {
        LastBuffer(conf, Abs());
      }
    }

    /** Makes sure there is something to skip over, without waiting for it; freed counts the
        token of a buffer that was used up. */
    method SkipFetch() returns (got: bool, freed: nat)
      requires Valid() && err.None? && (abandoned ==> cur.None? && ready == [] && readyClosed)
      modifies this, pool
      ensures Valid() && err.None? && delivered == old(delivered) && at == old(at) && lost == old(lost)
      ensures owed == old(owed) + freed && abandoned == old(abandoned)
      ensures got ==> cur.Some? && !abandoned && cur.value.Left() >= 0 && (cur.value.IsEmpty() ==> cur.value.err.Some?)
      ensures !got && abandoned ==> cur.None? && ready == [] && readyClosed
      ensures !got ==> cur.None? && (!abandoned ==> at == Sent(Abs()))
      ensures Sent(Abs()) >= old(Sent(Abs()))
      ensures missed == (old(missed) || old(Overlooked()))
      ensures !shared ==> exitClosed == old(exitClosed)
    {
      hide Inv, Apply, Enabled, Fuel, Rely, Sent;
      UsedUp(conf, Abs());
      freed := 0;
      if cur.None? || cur.value.IsEmpty() {
        if cur.Some? {
          ghost var s := Abs();
          ReleaseCur();
          SentStays(s, Abs());
          freed := 1;
        }
        got := Poll();
        if !got {
          return false, freed;
        }
      }
      CurrentBuffer(conf, Abs());
      got := true;
    }

    /** select over ready with a default: takes a buffer if one is there. */
    method Poll() returns (got: bool)
      requires Valid() && cur.None? && err.None? && (abandoned ==> ready == [] && readyClosed)
      modifies this, pool
      ensures Valid() && err.None? && delivered == old(delivered) && at == old(at) && lost == old(lost)
      ensures owed == old(owed) && abandoned == old(abandoned) && missed == old(missed)
      ensures got ==> cur.Some? && !abandoned && (cur.value.IsEmpty() ==> cur.value.err.Some?)
      ensures !got ==> cur.None? && (!abandoned ==> at == Sent(Abs()))
      ensures !got && abandoned ==> ready == [] && readyClosed
      ensures Sent(Abs()) >= old(Sent(Abs()))
      ensures !shared ==> exitClosed == old(exitClosed)
    {
      hide Inv, Apply, Enabled, Fuel, Sent;
      UsedUp(conf, Abs());
      Interfere();
      if ready == [] {
        if !abandoned {
          NothingAhead(conf, Abs());
        }
        return false;
      }
      NextBuffer(conf, Abs());
      ghost var s := Abs();
      ReceiveNext();
      SentStays(s, Abs());
      got := true;
    }

    method RefillTokens(refillTokens: nat)
      requires Valid() && owed == refillTokens
      modifies this, pool
      ensures Valid() && owed == 0
      ensures at == old(at) && delivered == old(delivered) && lost == old(lost) && err == old(err)
      ensures cur == old(cur) && abandoned == old(abandoned) && missed == old(missed)
      ensures !shared ==> exitClosed == old(exitClosed)
    {
      hide Inv, Apply, Enabled, Fuel;
      var left := refillTokens;
      while left > 0
        invariant Valid() && owed == left
        invariant at == old(at) && delivered == old(delivered) && lost == old(lost) && err == old(err)
        invariant cur == old(cur) && abandoned == old(abandoned) && missed == old(missed)
        invariant !shared ==> exitClosed == old(exitClosed)
      {
        SendToken();
        Interfere();
        left := left - 1;
      }
    }

    /** SkipBytes.  True means the next byte served is skip further on (or back) and every
        token of a consumed buffer is back; false means the reader has been abandoned.  A skip
        onward from a last buffer whose error was overlooked misses the error for good; no
        other skip does.  A recorded error refuses every skip and stays. */
    method SkipBytes(skip: int) returns (ok: bool)
      requires Settled()
      modifies this, pool
      ensures Settled() && delivered == old(delivered)
      ensures ok ==> 0 <= old(at) + skip == at <= |conf.input| && !abandoned && lost == old(lost)
      ensures !ok ==> abandoned && exitClosed && Slots(Abs()) == [] && taken == returned
      ensures skip < 0 ==> (ok <==> old(err.None? && cur.Some?) && old(at) + skip >= Begins(old(returned)))
      ensures skip >= 0 && skip < (|old(ready)| + 1) * BUFFER_SIZE && old(err.None? && SentAhead(skip)) ==> ok
      ensures missed == (old(missed) || (0 <= skip < BUFFER_SIZE && old(Overlooked()))) && !Overlooked()
      ensures old(err).Some? ==> !ok && err == old(err)
      ensures ok && !shared ==> exitClosed == old(exitClosed)
    {
      hide Begins;
      ok := TrySkip(skip);
      if !ok {
        Abandon();
      }
      PositionInRange(conf, Abs());
    }

    /** StopBuffering: no more is read from the input.  The wait for exited always ends. */
    method StopBuffering()
      requires Valid()
      modifies this, pool
      ensures Valid() && exitClosed
      ensures at == old(at) && delivered == old(delivered) && abandoned == old(abandoned)
      ensures cur == old(cur) && err == old(err) && missed == old(missed)
      ensures !old(exitClosed) ==> exited
    {
      hide Inv, Apply, Enabled;
      if exitClosed {
        return;
      }
      CloseExit();
      AwaitExited();
    }

    method AwaitExited()
      requires Valid() && exitClosed
      modifies this, pool
      ensures Valid() && Rely(old(Abs()), Abs()) && exited
    {
      hide Inv, Apply, Enabled, ProducerCanStep;
      ghost var s := Abs();
      while !exited
        invariant Valid() && exitClosed && Rely(s, Abs())
        decreases Fuel(Abs())
      {
        ghost var before := Abs();
        WaitsEnd(conf, before);
        var leave: bool := *;
        var eager: bool := *;
        GoroutineStep(leave, eager);
        RelyComposes(s, before, Abs());
      }
    }

    /** Abandon: stops the goroutine and puts every outstanding buffer back. */
    method Abandon()
      requires Valid()
      modifies this, pool
      ensures Settled() && abandoned && exitClosed && readyClosed && cur.None?
      ensures Slots(Abs()) == [] && taken == returned
      ensures at == old(at) && delivered == old(delivered) && err == old(err) && missed == old(missed)
    {
      hide Inv, Apply, Enabled, Rely;
      StopBuffering();
      Forfeit();
      if cur.Some? {
        DropCurrent();
      }
      DrainReady();
      AbandonReturnsAll(conf, Abs());
      TokensSettled(conf, Abs());
    }

    /** for b := range ready: ends when the channel is closed and empty. */
    method DrainReady()
      requires Valid() && abandoned && exitClosed && cur.None?
      modifies this, pool
      ensures Valid() && abandoned && exitClosed && cur.None? && ready == [] && readyClosed
      ensures at == old(at) && delivered == old(delivered) && err == old(err) && missed == old(missed)
    {
      hide Inv, Apply, Enabled;
      while true
        invariant Valid() && abandoned && exitClosed && cur.None?
        invariant at == old(at) && delivered == old(delivered) && err == old(err) && missed == old(missed)
        decreases 2 * Fuel(Abs()) + |ready|
      {
        ghost var before := Abs();
        AwaitReady();
        if ready == [] {
          return;
        }
        ghost var mid := Abs();
        DropNext();
        FuelBurns(conf, mid, DropReady);
      }
    }
  }

  ghost predicate AlwaysFails(w: Sink) {
    forall i: nat :: w.script(i) == TakesAll(true)
  }

  /** One call of WriteTo with a sink that always fails: one write, of a whole buffer. */
  method WriteAgain(r: Reader, w: Sink)
    requires r.Settled() && r.err.None? && !r.missed && !r.exitClosed && !r.shared && !r.Overlooked() && AlwaysFails(w)
    requires w as object != r && w as object != r.pool && 0 <= r.at <= |r.conf.input|
    modifies r, r.pool, w
    ensures r.Settled() && r.err.None? && !r.missed && !r.exitClosed
    ensures 0 <= old(r.at) <= r.at <= |r.conf.input| && w.written == old(w.written) + r.conf.input[old(r.at)..r.at]
    ensures r.at > old(r.at) || r.Overlooked()
    ensures r.Overlooked() ==> r.at == |r.conf.input|
    ensures |w.log| == |old(w.log)| + 1 && old(w.log) <= w.log && FailedWhole(w.log[|old(w.log)|])
  {
    hide Inv;
    var n, st := r.WriteTo(w);
    assert w.Follows(|old(w.log)|);
  }

  /** Calls of WriteTo with such a sink, until the last buffer has been taken. */
  method WriteOut(r: Reader, w: Sink)
    requires r.Settled() && r.err.None? && !r.missed && !r.exitClosed && !r.shared && !r.Overlooked() && AlwaysFails(w)
    requires w as object != r && w as object != r.pool && r.at == 0 && w.written == [] && w.log == []
    modifies r, r.pool, w
    ensures r.Settled() && r.err.None? && !r.missed && !r.exitClosed && r.Overlooked()
    ensures w.written == r.conf.input && forall i :: 0 <= i < |w.log| ==> FailedWhole(w.log[i])
  {
    hide Inv;
    while !(r.cur.Some? && r.cur.value.IsEmpty() && r.cur.value.err.Some?)
      invariant r.Settled() && r.err.None? && !r.missed && !r.exitClosed
      invariant 0 <= r.at <= |r.conf.input| && w.written == r.conf.input[..r.at]
      invariant forall i :: 0 <= i < |w.log| ==> FailedWhole(w.log[i])
      invariant r.Overlooked() ==> r.at == |r.conf.input|
      decreases |r.conf.input| - r.at, if r.Overlooked() then 0 else 1
    {
      ghost var mid := r.at;
      WriteAgain(r, w);
      assert r.conf.input[..mid] + r.conf.input[mid..r.at] == r.conf.input[..r.at];
    }
  }

  /** Any input at all, a sink that takes every byte and reports an error each time, and nobody
      who stops the reader: the sink ends up with the whole input, and the next call says the
      stream was abandoned instead of how the input ended. */
  method FailingSinkHidesEnd(input: Bytes, fault: Fault, buffers: nat) returns (r: Reader, w: Sink, st: Status)
    requires buffers > 0
    ensures r.conf == Config(input, fault, buffers) && w.written == input
    ensures forall i :: 0 <= i < |w.log| ==> FailedWhole(w.log[i])
    ensures st.StreamAbandoned? && !r.exitClosed && r.err.None?
  {
    hide Inv, Init;
    var pool := new P.Pool(BUFFER_SIZE, CACHE_SIZE);
    r := new Reader(Config(input, fault, buffers), pool, false);
    w := new Sink(_ => TakesAll(true));
    AtStart(r.conf, pool.Abs());
    WriteOut(r, w);
    var n;
    n, st := r.WriteTo(w);
  }

  lemma AtStart(c: Config, pool: P.State)
    ensures var s := Init(c, pool); s.err.None? && s.cur.None? && !s.missed && !s.exitClosed && s.at == 0
  {
  }
}

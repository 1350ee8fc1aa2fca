/** The protocol between the read-ahead goroutine and its consumer, pkg/asyncreader/asyncreader.go.

    A `State` holds both sides, the two channels and the shared pool.  An `Action` is the
    work between two points where the other side can be observed, so the runs below are all
    the interleavings of the goroutine with Read, WriteTo, SkipBytes, StopBuffering and
    Abandon, and with other users of the same pool.  The guards constrain only what the code
    constrains; in particular nothing but its mutex orders the consumer's own actions. */
module ReadAhead {
  import opened Basics
  import P = BufferPool

  const BUFFER_SIZE: nat := 1048576
  const SOFT_START: nat := 4096
  const CACHE_SIZE: nat := 64

  const PoolConfig := P.Config(BUFFER_SIZE, CACHE_SIZE)

  /** The error that ends the input. */
  datatype Fault = EOF | Broken(code: nat)

  /** input: every byte the wrapped reader yields before it reports fault. */
  datatype Config = Config(input: Bytes, fault: Fault, buffers: nat)

  /** The Go buffer; data is what its array holds, start where in the input that came from. */
  datatype Buffer = Buffer(buf: P.Slice, data: Bytes, err: Option<Fault>, offset: nat, start: nat) {
    function Left(): int {
      |data| - offset
    }

    predicate IsEmpty() {
      |data| - offset <= 0
    }
  }

  /** Where the goroutine stands. */
  datatype Producer =
    | Selecting                 // at the select over token and exit
    | Granted                   // holds a token, has no buffer yet
    | Filling(buf: P.Slice)     // about to read into buf
    | Sending(b: Buffer)        // about to send b to ready
    | Closing                   // returning: ready not yet closed
    | Signalling                // ready closed, exited not yet
    | Gone

  datatype State = State(
    // the goroutine
    prod: Producer, size: nat, pos: nat,
    // the channels
    token: nat, ready: seq<Buffer>, readyClosed: bool, exitClosed: bool, exited: bool,
    // the consumer, under the mutex: owed counts tokens not yet sent back
    cur: Option<Buffer>, err: Option<Fault>, owed: nat,
    // history: input position of the next byte, bytes handed over, whether a skip moved the
    // position, whether a buffer carrying the error was released unnoticed, whether Abandon
    // has begun, tokens that will never come back, buffers taken from and put to the pool
    at: int, delivered: Bytes, moved: bool, missed: bool, abandoned: bool, lost: nat,
    taken: nat, returned: nat,
    pool: P.State)

  function Init(c: Config, pool: P.State): State {
    State(Selecting, SOFT_START, 0, c.buffers, [], false, false, false, None, None, 0,
          0, [], false, false, false, 0, 0, 0, pool)
  }

  datatype Action =
    // the goroutine
    | TakeToken | Leave | GetBuffer | ReadInput(eager: bool) | Send | CloseReady | CloseExited
    // the consumer
    | Release | PayToken | Receive | Take(n: nat) | Move(k: int) | NoteError
    | StopInput | BeginAbandon | DropCur | DropReady
    // others, on the pool
    | Other(e: P.Event)

  predicate IsProducer(a: Action) {
    a.TakeToken? || a.Leave? || a.GetBuffer? || a.ReadInput? || a.Send? || a.CloseReady? || a.CloseExited?
  }

  // ---- the goroutine ------------------------------------------------------------------

  /** The buffer the goroutine reads into: a short prefix while the soft start lasts. */
  function SoftSlice(got: P.Slice, size: nat): P.Slice
    requires size <= got.cap
  {
    if size < BUFFER_SIZE then got.Reslice(0, size) else got
  }

  function NextSize(size: nat): nat {
    if size < BUFFER_SIZE then 2 * size else size
  }

  /** What ReadFill leaves: as much as fits.  The error comes with the last byte only if the
      wrapped reader is eager; it must come when the buffer could not be filled. */
  function Filled(c: Config, pos: nat, buf: P.Slice, eager: bool): Buffer
    requires pos <= |c.input| && buf.len <= buf.cap
  {
    var left := |c.input| - pos;
    var n := if left < buf.len then left else buf.len;
    var err := if left < buf.len || (left == buf.len && eager) then Some(c.fault) else None;
    Buffer(buf.Reslice(0, n), c.input[pos..pos + n], err, 0, pos)
  }

  // ---- actions ------------------------------------------------------------------------

  predicate Enabled(c: Config, s: State, a: Action) {
    match a
    case TakeToken => s.prod.Selecting? && s.token > 0
    case Leave => s.prod.Selecting? && s.exitClosed
    case GetBuffer => s.prod.Granted? && s.size <= P.Got(PoolConfig, s.pool).cap
    case ReadInput(eager) => s.prod.Filling? && s.pos <= |c.input| && s.prod.buf.len <= s.prod.buf.cap
    case Send => s.prod.Sending? && |s.ready| < c.buffers
    case CloseReady => s.prod.Closing?
    case CloseExited => s.prod.Signalling?
    case Release => s.cur.Some? && s.cur.value.IsEmpty() && !s.abandoned && !P.PutPanics(PoolConfig, s.cur.value.buf)
    case PayToken => s.owed > 0 && s.token < c.buffers && !s.abandoned
    case Receive => s.cur.None? && s.ready != [] && !s.abandoned
    case Take(n) => s.cur.Some? && n <= s.cur.value.Left() && !s.abandoned
    case Move(k) =>
      s.cur.Some? && s.err.None? && 0 <= s.cur.value.offset + k && k <= s.cur.value.Left() && !s.abandoned
    case NoteError => s.cur.Some? && s.cur.value.IsEmpty() && s.cur.value.err.Some? && !s.abandoned
    case StopInput => !s.exitClosed
    case BeginAbandon => s.exitClosed
    case DropCur => s.abandoned && s.cur.Some? && !P.PutPanics(PoolConfig, s.cur.value.buf)
    case DropReady => s.abandoned && s.cur.None? && s.ready != [] && !P.PutPanics(PoolConfig, s.ready[0].buf)
    case Other(e) => P.Enabled(PoolConfig, s.pool, e) && (e.Put? ==> e.b.id !in Held(s))
  }

  function PutBack(s: State, b: Buffer): State
    requires !P.PutPanics(PoolConfig, b.buf)
  {
    s.(pool := P.AfterPut(PoolConfig, s.pool, b.buf), returned := s.returned + 1)
  }

  function Apply(c: Config, s: State, a: Action): State
    requires Enabled(c, s, a)
  {
    match a
    case TakeToken => s.(token := s.token - 1, prod := Granted)
    case Leave => s.(prod := Closing)
    case GetBuffer =>
      s.(prod := Filling(SoftSlice(P.Got(PoolConfig, s.pool), s.size)), size := NextSize(s.size),
         taken := s.taken + 1, pool := P.AfterGet(PoolConfig, s.pool))
    case ReadInput(eager) =>
      var b := Filled(c, s.pos, s.prod.buf, eager);
      s.(prod := Sending(b), pos := s.pos + |b.data|)
    case Send =>
      s.(ready := s.ready + [s.prod.b], prod := if s.prod.b.err.Some? then Closing else Selecting)
    case CloseReady => s.(readyClosed := true, prod := Signalling)
    case CloseExited => s.(exited := true, prod := Gone)
    case Release =>
      PutBack(s, s.cur.value).(cur := None, owed := s.owed + 1,
        missed := s.missed || (s.cur.value.err.Some? && s.err.None?))
    case PayToken => s.(token := s.token + 1, owed := s.owed - 1)
    case Receive => s.(cur := Some(s.ready[0]), ready := s.ready[1..])
    case Take(n) =>
      var b := s.cur.value;
      s.(cur := Some(b.(offset := b.offset + n)), at := s.at + n,
         delivered := s.delivered + b.data[b.offset..b.offset + n])
    case Move(k) =>
      var b := s.cur.value;
      s.(cur := Some(b.(offset := b.offset + k)), at := s.at + k,
         moved := s.moved || k != 0)
    case NoteError => s.(err := s.cur.value.err)
    case StopInput => s.(exitClosed := true)
    case BeginAbandon => s.(abandoned := true, lost := s.lost + s.owed, owed := 0)
    case DropCur => PutBack(s, s.cur.value).(cur := None, lost := s.lost + 1)
    case DropReady => PutBack(s, s.ready[0]).(ready := s.ready[1..], lost := s.lost + 1)
    case Other(e) => s.(pool := P.Apply(PoolConfig, s.pool, e))
  }

  // Each consumer action with its guard met, told without the others.

  lemma DoRelease(c: Config, s: State)
    requires s.cur.Some? && s.cur.value.IsEmpty() && !s.abandoned && !P.PutPanics(PoolConfig, s.cur.value.buf)
    ensures Enabled(c, s, Release)
    ensures Apply(c, s, Release) == PutBack(s, s.cur.value).(cur := None, owed := s.owed + 1,
              missed := s.missed || (s.cur.value.err.Some? && s.err.None?))
  {
    hide PutBack;
  }

  lemma DoTake(c: Config, s: State, n: nat)
    requires s.cur.Some? && n <= s.cur.value.Left() && !s.abandoned
    ensures Enabled(c, s, Take(n))
    ensures var b := s.cur.value;
            Apply(c, s, Take(n)) == s.(cur := Some(b.(offset := b.offset + n)), at := s.at + n,
              delivered := s.delivered + b.data[b.offset..b.offset + n])
  {
    hide PutBack;
  }

  lemma DoMove(c: Config, s: State, k: int)
    requires s.cur.Some? && s.err.None? && 0 <= s.cur.value.offset + k && k <= s.cur.value.Left() && !s.abandoned
    ensures Enabled(c, s, Move(k))
    ensures var b := s.cur.value;
            Apply(c, s, Move(k)) == s.(cur := Some(b.(offset := b.offset + k)), at := s.at + k, moved := s.moved || k != 0)
  {
    hide PutBack;
  }

  lemma DoBeginAbandon(c: Config, s: State)
    requires s.exitClosed
    ensures Enabled(c, s, BeginAbandon)
    ensures Apply(c, s, BeginAbandon) == s.(abandoned := true, lost := s.lost + s.owed, owed := 0)
  {
    hide PutBack;
  }

  lemma DoDropCur(c: Config, s: State)
    requires s.abandoned && s.cur.Some? && !P.PutPanics(PoolConfig, s.cur.value.buf)
    ensures Enabled(c, s, DropCur)
    ensures Apply(c, s, DropCur) == PutBack(s, s.cur.value).(cur := None, lost := s.lost + 1)
  {
    hide PutBack;
  }

  lemma DoDropReady(c: Config, s: State)
    requires s.abandoned && s.cur.None? && s.ready != [] && !P.PutPanics(PoolConfig, s.ready[0].buf)
    ensures Enabled(c, s, DropReady)
    ensures Apply(c, s, DropReady) == PutBack(s, s.ready[0]).(ready := s.ready[1..], lost := s.lost + 1)
  {
    hide PutBack;
  }

  // ---- what is where ------------------------------------------------------------------

  /** The unread buffers in the order their bytes come: cur, then ready, then the one about
      to be sent. */
  function Line(s: State): seq<Buffer> {
    (if s.cur.Some? then [s.cur.value] else []) + s.ready + (if s.prod.Sending? then [s.prod.b] else [])
  }

  /** Every slice the reader has out, by place. */
  function Slots(s: State): seq<P.Slice> {
    (if s.cur.Some? then [s.cur.value.buf] else [])
    + seq(|s.ready|, i requires 0 <= i < |s.ready| => s.ready[i].buf)
    + (if s.prod.Sending? then [s.prod.b.buf] else if s.prod.Filling? then [s.prod.buf] else [])
  }

  function Held(s: State): set<nat> {
    set i | 0 <= i < |Slots(s)| :: Slots(s)[i].id
  }

  function ProducerHolds(p: Producer): nat {
    if p.Granted? || p.Filling? || p.Sending? then 1 else 0
  }

  predicate Returning(p: Producer) {
    p.Closing? || p.Signalling? || p.Gone?
  }

  /** Tokens in the channel, with the goroutine, standing for queued buffers, for the one
      being read and for those released and not yet paid for. */
  function Tokens(s: State): nat {
    s.token + ProducerHolds(s.prod) + |s.ready| + (if s.cur.Some? then 1 else 0) + s.owed
  }

  // ---- the invariant ------------------------------------------------------------------

  ghost predicate TokensConserved(c: Config, s: State) {
    && c.buffers > 0 && Tokens(s) + s.lost == c.buffers
    && (s.lost > 0 ==> s.abandoned)
    && (s.abandoned ==> s.exitClosed && s.owed == 0)
  }

  predicate SoftStartSize(n: nat) {
    n in {4096, 8192, 16384, 32768, 65536, 131072, 262144, 524288, BUFFER_SIZE}
  }

  ghost predicate ProducerSane(c: Config, s: State) {
    && SoftStartSize(s.size)
    && s.pos <= |c.input|
    && (s.readyClosed <==> s.prod.Signalling? || s.prod.Gone?)
    && (s.exited <==> s.prod.Gone?)
    && (s.prod.Filling? ==> 0 < s.prod.buf.len <= s.prod.buf.cap == BUFFER_SIZE)
  }

  /** Pairwise distinct arrays, all out of the pool, each still whole behind its slice. */
  ghost predicate Apart(slots: seq<P.Slice>, out: set<nat>) {
    && (forall i, j :: 0 <= i < j < |slots| ==> slots[i].id != slots[j].id)
    && (forall i :: 0 <= i < |slots| ==> slots[i].id in out && slots[i].cap == BUFFER_SIZE)
  }

  /** Each outstanding slice is in one place only, and every buffer taken from the pool is
      either still in one of them or has been put back. */
  ghost predicate Owned(s: State) {
    && P.Inv(PoolConfig, s.pool)
    && Apart(Slots(s), s.pool.out)
    && s.taken == s.returned + |Slots(s)|
  }

  ghost predicate GoodBuffer(c: Config, b: Buffer) {
    && b.offset <= |b.data| <= BUFFER_SIZE
    && b.start + |b.data| <= |c.input|
    && b.data == c.input[b.start..b.start + |b.data|]
    && (b.err.None? ==> b.data != [])
    && (b.err.Some? ==> b.err.value == c.fault && b.start + |b.data| == |c.input|)
  }

  /** Consecutive stretches of the input, the last ending at pos; only the first may have
      been read from, only the last can carry the error. */
  ghost predicate Chain(c: Config, line: seq<Buffer>, pos: nat) {
    && (forall i :: 0 <= i < |line| ==> GoodBuffer(c, line[i]))
    && (forall i :: 0 < i < |line| ==> line[i].offset == 0)
    && (forall i :: 0 <= i < |line| - 1 ==> line[i].err.None? && line[i].start + |line[i].data| == line[i + 1].start)
    && (line != [] ==> line[|line| - 1].start + |line[|line| - 1].data| == pos)
  }

  predicate FaultInLine(line: seq<Buffer>) {
    line != [] && line[|line| - 1].err.Some?
  }

  /** The buffers in line continue each other up to where the goroutine has read; once the
      error is among them the goroutine reads no more. */
  ghost predicate InLine(c: Config, s: State) {
    && Chain(c, Line(s), s.pos)
    && (FaultInLine(Line(s)) ==> s.prod.Sending? || Returning(s.prod))
  }

  /** Where the line says the consumer stands. */
  function HeadAt(s: State): int {
    if Line(s) == [] then s.pos else Line(s)[0].start + Line(s)[0].offset
  }

  /** The consumer's position is the first unread byte in line; what it was given is the
      input up to there, unless it skipped. */
  ghost predicate Positioned(c: Config, s: State) {
    && 0 <= s.at <= |c.input|
    && (!s.moved ==> s.delivered == c.input[..s.at])
    && (!s.abandoned ==> s.at == HeadAt(s))
  }

  /** The error is recorded only when every byte before it has been passed, and then nothing
      more can come. */
  ghost predicate ErrorLast(c: Config, s: State) {
    s.err.Some? ==>
      && s.err.value == c.fault && s.at == |c.input|
      && s.ready == [] && Returning(s.prod)
      && (s.cur.Some? ==> s.cur.value.IsEmpty())
  }

  /** A goroutine that returned unasked left the error in line, with the consumer, or had it
      missed. */
  ghost predicate ErrorKept(s: State) {
    Returning(s.prod) && !s.exitClosed ==> s.err.Some? || s.missed || FaultInLine(Line(s))
  }

  /** Nothing has been read from a buffer that the consumer has not received. */
  ghost predicate Unread(s: State) {
    && (forall i :: 0 <= i < |s.ready| ==> s.ready[i].offset == 0)
    && (s.prod.Sending? ==> s.prod.b.offset == 0)
  }

  /** An error that was missed is missed for good: nothing is left that could bring it. */
  ghost predicate MissedForGood(s: State) {
    s.missed ==> s.err.None? && s.cur.None? && s.ready == [] && Returning(s.prod)
  }

  function Pow2(k: nat): nat {
    if k == 0 then 1 else 2 * Pow2(k - 1)
  }

  /** The length of the k-th buffer the goroutine takes, counting from 0, and where in the input
      it begins. */
  function BufferLength(k: nat): nat {
    var n := SOFT_START * Pow2(k);
    if n < BUFFER_SIZE then n else BUFFER_SIZE
  }

  function Begins(k: nat): nat {
    if k == 0 then 0 else Begins(k - 1) + BufferLength(k - 1)
  }

  /** The k-th buffer, as read: full, unless the input ended in it. */
  predicate IsKth(b: Buffer, k: nat) {
    b.start == Begins(k) && (if b.err.None? then |b.data| == BufferLength(k) else |b.data| <= BufferLength(k))
  }

  ghost predicate KthInLine(line: seq<Buffer>, first: nat) {
    forall i :: 0 <= i < |line| ==> IsKth(line[i], first + i)
  }

  /** The buffers taken so far have the lengths of the soft start, one after the other. */
  ghost predicate SoftStarted(s: State) {
    && s.size == BufferLength(s.taken)
    && KthInLine(Line(s), s.returned)
    && (s.prod.Filling? ==> s.taken == s.returned + |Line(s)| + 1 && s.prod.buf.len == BufferLength(s.taken - 1))
    && (s.prod.Selecting? || s.prod.Granted? || s.prod.Filling? ==> s.pos == Begins(s.returned + |Line(s)|))
  }

  ghost predicate Inv(c: Config, s: State) {
    && SoftStarted(s)
    && TokensConserved(c, s)
    && ProducerSane(c, s)
    && Owned(s)
    && InLine(c, s)
    && Unread(s)
    && Positioned(c, s)
    && ErrorLast(c, s)
    && ErrorKept(s)
    && MissedForGood(s)
  }

  // ---- every action keeps it ------------------------------------------------------------

  predicate HeadLeaves(a: Action) {
    a.Release? || a.DropCur? || a.DropReady?
  }

  predicate HeadMoves(a: Action) {
    a.Take? || a.Move?
  }

  /** What each action leaves alone: only the goroutine's own actions move it, only ReadInput
      reads on, only Take and Move change the position, only Take delivers, only NoteError
      records the error, only Release can miss it, and closed stays closed. */
  ghost predicate LeavesAlone(s: State, a: Action, t: State) {
    && (!IsProducer(a) ==> t.prod == s.prod && t.size == s.size && t.readyClosed == s.readyClosed && t.exited == s.exited)
    && (!a.ReadInput? ==> t.pos == s.pos)
    && (!HeadMoves(a) ==> t.at == s.at && t.moved == s.moved)
    && (!a.Take? ==> t.delivered == s.delivered)
    && (a.Take? ==> t.moved == s.moved && t.at == s.at + a.n)
    && (a.Move? ==> (t.moved || t.at == s.at) && (s.moved ==> t.moved))
    && (!a.NoteError? ==> t.err == s.err)
    && (a.NoteError? ==> t.err.Some?)
    && (!a.Release? ==> t.missed == s.missed)
    && t.exitClosed == (s.exitClosed || a.StopInput?)
    && t.abandoned == (s.abandoned || a.BeginAbandon?)
  }

  predicate IsRead(a: Action) {
    a.Release? || a.PayToken? || a.Receive? || a.Take? || a.Move? || a.NoteError?
  }

  lemma ProducerFootprint(c: Config, s: State, a: Action)
    requires Enabled(c, s, a) && IsProducer(a)
    ensures LeavesAlone(s, a, Apply(c, s, a))
  {
    hide P.AfterGet, P.Got, Filled, SoftSlice, Held, Slots, Line;
    match a {
      case TakeToken => case Leave => case GetBuffer => case ReadInput(_) => case Send =>
      case CloseReady => case CloseExited =>
    }
  }

  lemma ReadFootprint(c: Config, s: State, a: Action)
    requires Enabled(c, s, a) && IsRead(a)
    ensures LeavesAlone(s, a, Apply(c, s, a))
  {
    hide P.AfterPut, Held, Slots, Line;
    match a {
      case Release => case PayToken => case Receive => case Take(_) => case Move(_) => case NoteError =>
    }
  }

  lemma StopFootprint(c: Config, s: State, a: Action)
    requires Enabled(c, s, a) && !IsProducer(a) && !IsRead(a)
    ensures LeavesAlone(s, a, Apply(c, s, a))
  {
    hide P.AfterPut, P.Apply, P.Enabled, Held, Slots, Line;
    match a {
      case StopInput => case BeginAbandon => case DropCur => case DropReady => case Other(_) =>
    }
  }

  lemma Footprint(c: Config, s: State, a: Action)
    requires Enabled(c, s, a)
    ensures LeavesAlone(s, a, Apply(c, s, a))
  {
    hide Enabled, Apply, LeavesAlone;
    if IsProducer(a) {
      ProducerFootprint(c, s, a);
    } else if IsRead(a) {
      ReadFootprint(c, s, a);
    } else {
      StopFootprint(c, s, a);
    }
  }

  lemma ProducerTokens(c: Config, s: State, a: Action)
    requires TokensConserved(c, s) && Enabled(c, s, a) && IsProducer(a)
    ensures TokensConserved(c, Apply(c, s, a))
  {
    hide P.AfterGet, P.Got, Filled, SoftSlice, Held, Slots, Line;
    match a {
      case TakeToken => case Leave => case GetBuffer => case ReadInput(_) => case Send =>
      case CloseReady => case CloseExited =>
    }
  }

  lemma ReadTokens(c: Config, s: State, a: Action)
    requires TokensConserved(c, s) && Enabled(c, s, a) && IsRead(a)
    ensures TokensConserved(c, Apply(c, s, a))
  {
    hide P.AfterPut, Held, Slots, Line;
    match a {
      case Release => case PayToken => case Receive => case Take(_) => case Move(_) => case NoteError =>
    }
  }

  lemma StopTokens(c: Config, s: State, a: Action)
    requires TokensConserved(c, s) && Enabled(c, s, a) && !IsProducer(a) && !IsRead(a)
    ensures TokensConserved(c, Apply(c, s, a))
  {
    hide P.AfterPut, P.Apply, P.Enabled, Held, Slots, Line;
    match a {
      case StopInput => case BeginAbandon => case DropCur => case DropReady => case Other(_) =>
    }
  }

  lemma TokensStep(c: Config, s: State, a: Action)
    requires TokensConserved(c, s) && Enabled(c, s, a)
    ensures TokensConserved(c, Apply(c, s, a))
  {
    hide Enabled, Apply, TokensConserved;
    if IsProducer(a) {
      ProducerTokens(c, s, a);
    } else if IsRead(a) {
      ReadTokens(c, s, a);
    } else {
      StopTokens(c, s, a);
    }
  }

  /** The soft start doubles its way up to exactly the full buffer. */
  lemma SizeDoubles(size: nat)
    requires SoftStartSize(size)
    ensures SoftStartSize(NextSize(size)) && 0 < size <= BUFFER_SIZE
    ensures NextSize(size) == if size == BUFFER_SIZE then size else 2 * size
  {
  }

  lemma ProducerStep(c: Config, s: State, a: Action)
    requires ProducerSane(c, s) && Enabled(c, s, a)
    requires P.Got(PoolConfig, s.pool).len == P.Got(PoolConfig, s.pool).cap == BUFFER_SIZE
    ensures ProducerSane(c, Apply(c, s, a))
  {
    hide *;
    if a.GetBuffer? {
      GetBufferSane(c, s);
    } else if a.ReadInput? {
      ReadInputSane(c, s, a);
    } else if IsProducer(a) {
      TurnSane(c, s, a);
    } else {
      OthersSane(c, s, a);
    }
  }

  lemma GetBufferSane(c: Config, s: State)
    requires ProducerSane(c, s) && Enabled(c, s, GetBuffer)
    requires P.Got(PoolConfig, s.pool).len == P.Got(PoolConfig, s.pool).cap == BUFFER_SIZE
    ensures ProducerSane(c, Apply(c, s, GetBuffer))
  {
    hide SoftStartSize, NextSize, P.Got, P.AfterGet;
    SizeDoubles(s.size);
  }

  lemma ReadInputSane(c: Config, s: State, a: Action)
    requires ProducerSane(c, s) && Enabled(c, s, a) && a.ReadInput?
    ensures ProducerSane(c, Apply(c, s, a))
  {
    hide SoftStartSize;
  }

  lemma TurnSane(c: Config, s: State, a: Action)
    requires ProducerSane(c, s) && Enabled(c, s, a) && IsProducer(a) && !a.GetBuffer? && !a.ReadInput?
    ensures ProducerSane(c, Apply(c, s, a))
  {
    hide SoftStartSize;
    match a {
      case TakeToken => case Leave => case Send => case CloseReady => case CloseExited =>
    }
  }

  lemma OthersSane(c: Config, s: State, a: Action)
    requires ProducerSane(c, s) && Enabled(c, s, a) && !IsProducer(a)
    ensures ProducerSane(c, Apply(c, s, a))
  {
    hide Enabled, Apply, SoftStartSize;
    Footprint(c, s, a);
  }

  lemma ChainTail(c: Config, line: seq<Buffer>, pos: nat)
    requires Chain(c, line, pos) && line != []
    ensures Chain(c, line[1..], pos)
    ensures FaultInLine(line[1..]) <==> |line| > 1 && FaultInLine(line)
  {
  }

  lemma MovedGood(c: Config, a: Buffer, b: Buffer)
    requires GoodBuffer(c, a) && b.offset <= |b.data| && b == a.(offset := b.offset)
    ensures GoodBuffer(c, b)
  {
  }

  lemma ChainMoved(c: Config, line: seq<Buffer>, pos: nat, b: Buffer)
    requires Chain(c, line, pos) && line != []
    requires b.offset <= |b.data| && b == line[0].(offset := b.offset)
    ensures Chain(c, [b] + line[1..], pos)
    ensures FaultInLine([b] + line[1..]) <==> FaultInLine(line)
  {
    hide GoodBuffer;
    MovedGood(c, line[0], b);
    var moved := [b] + line[1..];
    assert forall i :: 0 < i < |line| ==> moved[i] == line[i];
    assert moved[0] == b && |moved| == |line|;
  }

  lemma ChainExtended(c: Config, line: seq<Buffer>, pos: nat, b: Buffer)
    requires Chain(c, line, pos) && !FaultInLine(line)
    requires GoodBuffer(c, b) && b.start == pos && b.offset == 0
    ensures Chain(c, line + [b], pos + |b.data|)
    ensures FaultInLine(line + [b]) <==> b.err.Some?
  {
    hide GoodBuffer;
    var longer := line + [b];
    assert forall i :: 0 <= i < |line| ==> longer[i] == line[i];
    assert longer[|line|] == b;
  }

  lemma FilledGood(c: Config, pos: nat, buf: P.Slice, eager: bool)
    requires pos <= |c.input| && 0 < buf.len <= buf.cap == BUFFER_SIZE
    ensures GoodBuffer(c, Filled(c, pos, buf, eager))
  {
  }

  // How an action changes the line: its head leaves, its head is read or skipped over, a
  // filled buffer joins at the end, or nothing.

  lemma LineHeadLeaves(c: Config, s: State, a: Action)
    requires Enabled(c, s, a) && HeadLeaves(a)
    ensures Line(s) != [] && Line(Apply(c, s, a)) == Line(s)[1..]
  {
    hide P.AfterPut, Held, Slots;
    assert Line(Apply(c, s, a)) == Line(s)[1..];
  }

  lemma LineHeadMoves(c: Config, s: State, a: Action)
    requires Enabled(c, s, a) && HeadMoves(a)
    ensures Line(s) != [] && s.cur == Some(Line(s)[0])
    ensures Line(Apply(c, s, a)) == [Apply(c, s, a).cur.value] + Line(s)[1..]
  {
    assert Line(Apply(c, s, a)) == [Apply(c, s, a).cur.value] + Line(s)[1..];
  }

  lemma LineGrows(c: Config, s: State, a: Action)
    requires Enabled(c, s, a) && a.ReadInput?
    ensures Line(Apply(c, s, a)) == Line(s) + [Filled(c, s.pos, s.prod.buf, a.eager)]
  {
    assert Line(Apply(c, s, a)) == Line(s) + [Filled(c, s.pos, s.prod.buf, a.eager)];
  }

  lemma LineStays(c: Config, s: State, a: Action)
    requires Enabled(c, s, a) && !HeadLeaves(a) && !HeadMoves(a) && !a.ReadInput?
    ensures Line(Apply(c, s, a)) == Line(s)
  {
    if a.Send? || a.Receive? {
      assert Line(Apply(c, s, a)) == Line(s);
    }
  }

  /** What the line invariant says besides the chain: a goroutine past the error stays past. */
  lemma FaultStays(c: Config, s: State, a: Action)
    requires Enabled(c, s, a) && (s.prod.Sending? || Returning(s.prod))
    requires s.prod.Sending? && FaultInLine(Line(s)) ==> s.prod.b.err.Some?
    ensures FaultInLine(Line(s)) ==> Apply(c, s, a).prod.Sending? || Returning(Apply(c, s, a).prod)
  {
  }

  lemma InLineStep(c: Config, s: State, a: Action)
    requires InLine(c, s) && ProducerSane(c, s) && Enabled(c, s, a)
    ensures InLine(c, Apply(c, s, a))
  {
    if a.ReadInput? {
      InLineReadInput(c, s, a);
    } else {
      hide Apply, Enabled, Chain;
      Footprint(c, s, a);
      if FaultInLine(Line(s)) {
        FaultStays(c, s, a);
      }
      if HeadLeaves(a) {
        LineHeadLeaves(c, s, a);
        ChainTail(c, Line(s), s.pos);
      } else if HeadMoves(a) {
        LineHeadMoves(c, s, a);
        HeadMovesWithin(c, s, a);
        ChainMoved(c, Line(s), s.pos, Apply(c, s, a).cur.value);
      } else {
        LineStays(c, s, a);
      }
    }
  }

  lemma InLineReadInput(c: Config, s: State, a: Action)
    requires InLine(c, s) && ProducerSane(c, s) && Enabled(c, s, a) && a.ReadInput?
    ensures InLine(c, Apply(c, s, a))
  {
    LineGrows(c, s, a);
    FilledGood(c, s.pos, s.prod.buf, a.eager);
    ChainExtended(c, Line(s), s.pos, Filled(c, s.pos, s.prod.buf, a.eager));
  }

  lemma HeadMovesWithin(c: Config, s: State, a: Action)
    requires Enabled(c, s, a) && HeadMoves(a)
    ensures s.cur.Some? && Apply(c, s, a).cur.Some?
    ensures
      var b, d := Apply(c, s, a).cur.value, if a.Take? then a.n else a.k;
      && b == s.cur.value.(offset := b.offset)
      && b.offset <= |b.data|
      && b.offset == s.cur.value.offset + d
      && Apply(c, s, a).at == s.at + d
      && !s.abandoned
  {
  }

  lemma HeadStart(c: Config, s: State)
    requires InLine(c, s) && Line(s) != []
    ensures GoodBuffer(c, Line(s)[0])
    ensures s.cur.Some? ==> Line(s)[0] == s.cur.value
    ensures |Line(s)| > 1 ==> Line(s)[1..][0] == Line(s)[1] && Line(s)[1].offset == 0
                              && Line(s)[0].start + |Line(s)[0].data| == Line(s)[1].start
    ensures |Line(s)| == 1 ==> Line(s)[0].start + |Line(s)[0].data| == s.pos
  {
  }

  lemma ReleaseHead(c: Config, s: State)
    requires Enabled(c, s, Release)
    ensures s.cur.Some? && s.cur.value.IsEmpty()
  {
  }

  lemma AtRelease(c: Config, s: State)
    requires InLine(c, s) && Enabled(c, s, Release)
    ensures HeadAt(Apply(c, s, Release)) == HeadAt(s) && Apply(c, s, Release).at == s.at
  {
    hide Enabled, Apply, InLine, Line;
    Footprint(c, s, Release);
    ReleaseHead(c, s);
    LineHeadLeaves(c, s, Release);
    HeadStart(c, s);
  }

  lemma AtHeadMoves(c: Config, s: State, a: Action)
    requires InLine(c, s) && Enabled(c, s, a) && HeadMoves(a)
    ensures HeadAt(Apply(c, s, a)) - HeadAt(s) == Apply(c, s, a).at - s.at
    ensures s.at == HeadAt(s) ==> 0 <= Apply(c, s, a).at <= |c.input|
  {
    hide Enabled, Apply, InLine;
    LineHeadMoves(c, s, a);
    HeadMovesWithin(c, s, a);
    HeadStart(c, s);
  }

  lemma AtReadInput(c: Config, s: State, a: Action)
    requires InLine(c, s) && Enabled(c, s, a) && a.ReadInput?
    ensures HeadAt(Apply(c, s, a)) == HeadAt(s) && Apply(c, s, a).at == s.at
  {
    LineGrows(c, s, a);
  }

  lemma AtStays(c: Config, s: State, a: Action)
    requires Enabled(c, s, a) && !HeadLeaves(a) && !HeadMoves(a) && !a.ReadInput?
    ensures HeadAt(Apply(c, s, a)) == HeadAt(s)
  {
    hide Enabled, Apply;
    LineStays(c, s, a);
    Footprint(c, s, a);
  }

  lemma SliceOfSlice(x: Bytes, lo: nat, hi: nat, i: nat, j: nat)
    requires lo <= hi <= |x| && i <= j <= hi - lo
    ensures x[lo..hi][i..j] == x[lo + i..lo + j]
  {
    assert forall k :: 0 <= k < j - i ==> x[lo..hi][i..j][k] == x[lo + i..lo + j][k];
  }

  lemma HeadIsInput(c: Config, s: State)
    requires InLine(c, s) && Positioned(c, s) && s.cur.Some? && !s.abandoned
    ensures GoodBuffer(c, s.cur.value) && s.at == s.cur.value.start + s.cur.value.offset
  {
    HeadStart(c, s);
  }

  lemma EnabledTake(c: Config, s: State, n: nat)
    requires Enabled(c, s, Take(n))
    ensures s.cur.Some? && n <= s.cur.value.Left() && !s.abandoned
    ensures s.cur.value.offset <= |s.cur.value.data| ==>
      Apply(c, s, Take(n)).delivered == s.delivered + s.cur.value.data[s.cur.value.offset..s.cur.value.offset + n]
  {
  }

  /** What Take hands over is the input at the consumer's position. */
  lemma TakeGivesInput(c: Config, s: State, n: nat)
    requires InLine(c, s) && Positioned(c, s) && Enabled(c, s, Take(n))
    ensures s.at + n <= |c.input|
    ensures s.cur.value.data[s.cur.value.offset..s.cur.value.offset + n] == c.input[s.at..s.at + n]
    ensures Apply(c, s, Take(n)).delivered == s.delivered + c.input[s.at..s.at + n]
  {
    EnabledTake(c, s, n);
    hide InLine, Positioned, Enabled, Apply;
    HeadIsInput(c, s);
    var b := s.cur.value;
    SliceOfSlice(c.input, b.start, b.start + |b.data|, b.offset, b.offset + n);
  }

  lemma PositionedStep(c: Config, s: State, a: Action)
    requires InLine(c, s) && Positioned(c, s) && Enabled(c, s, a)
    ensures Positioned(c, Apply(c, s, a))
  {
    hide Apply, Enabled, InLine, HeadAt;
    Footprint(c, s, a);
    if HeadMoves(a) {
      HeadMovesWithin(c, s, a);
      AtHeadMoves(c, s, a);
      if a.Take? {
        TakeGivesInput(c, s, a.n);
        assert c.input[..s.at + a.n] == c.input[..s.at] + c.input[s.at..s.at + a.n];
      }
    } else if a.Release? {
      AtRelease(c, s);
    } else if a.DropCur? || a.DropReady? {
      DropsAbandoned(c, s, a);
    } else if a.ReadInput? {
      AtReadInput(c, s, a);
    } else {
      AtStays(c, s, a);
    }
  }

  lemma DropsAbandoned(c: Config, s: State, a: Action)
    requires Enabled(c, s, a) && (a.DropCur? || a.DropReady?)
    ensures s.abandoned
  {
  }

  /** Recording the error: it is the last of the line, and the head has been read out. */
  lemma NoteErrorIsLast(c: Config, s: State)
    requires InLine(c, s) && Positioned(c, s) && Enabled(c, s, NoteError)
    ensures s.cur.value.err == Some(c.fault) && s.at == |c.input|
    ensures s.ready == [] && Returning(s.prod)
  {
    HeadStart(c, s);
    assert |Line(s)| == 1;
    assert FaultInLine(Line(s));
  }

  /** Once the error is recorded nothing can be received, read or skipped, and only another
      record of the same error can be made. */
  lemma ErrorRest(c: Config, s: State, a: Action)
    requires ErrorLast(c, s) && s.err.Some? && Enabled(c, s, a) && !a.NoteError?
    ensures ErrorLast(c, Apply(c, s, a)) && Apply(c, s, a).err == s.err
    ensures Apply(c, s, a).delivered == s.delivered && Apply(c, s, a).at == s.at
  {
  }

  lemma ErrorNoted(c: Config, s: State)
    requires InLine(c, s) && Positioned(c, s) && Enabled(c, s, NoteError)
    ensures ErrorLast(c, Apply(c, s, NoteError)) && Apply(c, s, NoteError).err == Some(c.fault)
    ensures Apply(c, s, NoteError).delivered == s.delivered && Apply(c, s, NoteError).at == s.at
  {
    NoteErrorIsLast(c, s);
  }

  lemma ErrorLastStep(c: Config, s: State, a: Action)
    requires InLine(c, s) && Positioned(c, s) && ErrorLast(c, s) && Enabled(c, s, a)
    ensures ErrorLast(c, Apply(c, s, a))
  {
    hide Apply, Enabled, InLine, Positioned;
    if a.NoteError? {
      ErrorNoted(c, s);
    } else if s.err.Some? {
      ErrorRest(c, s, a);
    } else {
      Footprint(c, s, a);
    }
  }

  lemma ReleaseKeepsError(c: Config, s: State)
    requires InLine(c, s) && ErrorKept(s) && Enabled(c, s, Release)
    ensures ErrorKept(Apply(c, s, Release))
  {
    hide Chain;
    LineHeadLeaves(c, s, Release);
    HeadStart(c, s);
  }

  /** How the goroutine comes to return. */
  lemma ReturnCauses(c: Config, s: State, a: Action)
    requires Enabled(c, s, a)
    ensures Returning(Apply(c, s, a).prod) && !s.exitClosed ==> Returning(s.prod) || FaultInLine(Line(s))
  {
    if !a.Send? {
      Footprint(c, s, a);
    }
  }

  lemma DropsStopped(c: Config, s: State, a: Action)
    requires TokensConserved(c, s) && Enabled(c, s, a) && (a.DropCur? || a.DropReady?)
    ensures s.exitClosed
  {
  }

  lemma ErrorKeptStep(c: Config, s: State, a: Action)
    requires InLine(c, s) && ErrorKept(s) && TokensConserved(c, s) && Enabled(c, s, a)
    ensures ErrorKept(Apply(c, s, a))
  {
    hide Apply, Enabled, TokensConserved;
    if a.Release? {
      ReleaseKeepsError(c, s);
    } else {
      ReturnCauses(c, s, a);
      Footprint(c, s, a);
      if a.DropCur? || a.DropReady? {
        DropsStopped(c, s, a);
      } else if HeadMoves(a) {
        LineHeadMoves(c, s, a);
        HeadMovesWithin(c, s, a);
        ChainMoved(c, Line(s), s.pos, Apply(c, s, a).cur.value);
      } else if a.ReadInput? {
        ReadInputReturnsNot(c, s, a);
      } else {
        LineStays(c, s, a);
      }
    }
  }

  lemma ReadInputReturnsNot(c: Config, s: State, a: Action)
    requires Enabled(c, s, a) && a.ReadInput?
    ensures !Returning(Apply(c, s, a).prod)
  {
  }

  lemma SlotsHeadLeaves(c: Config, s: State, a: Action)
    requires Enabled(c, s, a) && HeadLeaves(a)
    ensures Slots(s) != [] && Slots(Apply(c, s, a)) == Slots(s)[1..]
    ensures Slots(s)[0] == if a.DropReady? then s.ready[0].buf else s.cur.value.buf
  {
    hide P.AfterPut, Held, Line;
    assert Slots(Apply(c, s, a)) == Slots(s)[1..];
  }

  lemma SlotsGrow(c: Config, s: State)
    requires Enabled(c, s, GetBuffer)
    ensures Slots(Apply(c, s, GetBuffer)) == Slots(s) + [SoftSlice(P.Got(PoolConfig, s.pool), s.size)]
  {
    assert Slots(Apply(c, s, GetBuffer)) == Slots(s) + [SoftSlice(P.Got(PoolConfig, s.pool), s.size)];
  }

  lemma SlotsPass(c: Config, s: State, a: Action)
    requires Enabled(c, s, a) && (a.Send? || a.Receive?)
    ensures Slots(Apply(c, s, a)) == Slots(s)
  {
    hide Slots, Apply, Enabled;
    if a.Send? {
      SlotsSent(c, s);
    } else {
      SlotsReceived(c, s);
    }
  }

  lemma SlotsSent(c: Config, s: State)
    requires Enabled(c, s, Send)
    ensures Slots(Apply(c, s, Send)) == Slots(s)
  {
    hide Held, Line;
    assert Slots(Apply(c, s, Send)) == Slots(s);
  }

  lemma SlotsReceived(c: Config, s: State)
    requires Enabled(c, s, Receive)
    ensures Slots(Apply(c, s, Receive)) == Slots(s)
  {
    hide Held, Line;
    assert Slots(Apply(c, s, Receive)) == Slots(s);
  }

  lemma SlotsShorten(c: Config, s: State, a: Action)
    requires ProducerSane(c, s) && Enabled(c, s, a) && a.ReadInput?
    ensures |Slots(Apply(c, s, a))| == |Slots(s)|
    ensures forall i :: 0 <= i < |Slots(s)| ==> Slots(Apply(c, s, a))[i].id == Slots(s)[i].id
                                                && Slots(Apply(c, s, a))[i].cap == Slots(s)[i].cap
  {
  }

  lemma SlotsSame(c: Config, s: State, a: Action)
    requires Enabled(c, s, a) && !HeadLeaves(a) && !a.GetBuffer? && !a.Send? && !a.Receive? && !a.ReadInput?
    ensures Slots(Apply(c, s, a)) == Slots(s)
  {
    hide P.Apply, P.Enabled, Held, Line;
    match a {
      case TakeToken => case Leave => case CloseReady => case CloseExited => case PayToken => case Take(_) =>
      case Move(_) => case NoteError => case StopInput => case BeginAbandon => case Other(_) =>
    }
  }

  /** Sending and receiving pass a slice on; reading only shortens it. */
  lemma SlotsStay(c: Config, s: State, a: Action)
    requires ProducerSane(c, s) && Enabled(c, s, a) && !HeadLeaves(a) && !a.GetBuffer?
    ensures |Slots(Apply(c, s, a))| == |Slots(s)|
    ensures forall i :: 0 <= i < |Slots(s)| ==> Slots(Apply(c, s, a))[i].id == Slots(s)[i].id
                                                && Slots(Apply(c, s, a))[i].cap == Slots(s)[i].cap
  {
    hide Enabled, Apply, Slots, ProducerSane;
    if a.Send? || a.Receive? {
      SlotsPass(c, s, a);
    } else if a.ReadInput? {
      SlotsShorten(c, s, a);
    } else {
      SlotsSame(c, s, a);
    }
  }

  lemma PoolStays(c: Config, s: State, a: Action)
    requires Enabled(c, s, a) && !HeadLeaves(a) && !a.GetBuffer? && !a.Other?
    ensures Apply(c, s, a).pool == s.pool && Apply(c, s, a).taken == s.taken && Apply(c, s, a).returned == s.returned
  {
    hide Held, Slots, Line, Filled;
    match a {
      case TakeToken => case Leave => case ReadInput(_) => case Send => case CloseReady => case CloseExited =>
      case PayToken => case Receive => case Take(_) => case Move(_) => case NoteError => case StopInput =>
      case BeginAbandon =>
    }
  }

  lemma HeldBySlots(s: State, i: nat)
    requires i < |Slots(s)|
    ensures Slots(s)[i].id in Held(s)
  {
  }

  lemma ApartTail(slots: seq<P.Slice>, out: set<nat>)
    requires Apart(slots, out) && slots != []
    ensures Apart(slots[1..], out - {slots[0].id})
  {
  }

  lemma PutBackPool(c: Config, s: State, a: Action)
    requires Enabled(c, s, a) && HeadLeaves(a) && Slots(s) != []
    requires Slots(s)[0] == if a.DropReady? then s.ready[0].buf else s.cur.value.buf
    ensures !P.PutPanics(PoolConfig, Slots(s)[0])
    ensures Apply(c, s, a).pool == P.AfterPut(PoolConfig, s.pool, Slots(s)[0])
    ensures Apply(c, s, a).taken == s.taken && Apply(c, s, a).returned == s.returned + 1
  {
    hide Slots, Held, Line, P.AfterPut;
  }

  lemma PutBackOwned(c: Config, s: State, a: Action)
    requires Owned(s) && Enabled(c, s, a) && HeadLeaves(a)
    ensures Owned(Apply(c, s, a))
  {
    hide Slots, Held, Enabled, Apply, P.Inv, Apart;
    SlotsHeadLeaves(c, s, a);
    PutBackPool(c, s, a);
    FirstIsOut(Slots(s), s.pool.out);
    P.PutKeepsInvIff(PoolConfig, s.pool, Slots(s)[0]);
    ApartTail(Slots(s), s.pool.out);
  }

  lemma FirstIsOut(slots: seq<P.Slice>, out: set<nat>)
    requires Apart(slots, out) && slots != []
    ensures slots[0].id in out
  {
  }

  lemma TakenOwned(c: Config, s: State)
    requires Owned(s) && Enabled(c, s, GetBuffer)
    ensures Owned(Apply(c, s, GetBuffer))
  {
    SlotsGrow(c, s);
    P.GetKeepsInv(PoolConfig, s.pool);
  }

  /** What other clients of the pool do leaves our fields alone and keeps our buffers out. */
  lemma OtherEvent(c: Config, s: State, e: P.Event)
    requires P.Inv(PoolConfig, s.pool) && Enabled(c, s, Other(e))
    ensures P.Inv(PoolConfig, Apply(c, s, Other(e)).pool)
    ensures forall x :: x in Held(s) && x in s.pool.out ==> x in Apply(c, s, Other(e)).pool.out
    ensures Slots(Apply(c, s, Other(e))) == Slots(s)
    ensures Apply(c, s, Other(e)).taken == s.taken && Apply(c, s, Other(e)).returned == s.returned
  {
    hide P.Inv, Held, Slots;
    P.StepKeepsInv(PoolConfig, s.pool, e);
    SlotsSame(c, s, Other(e));
  }

  lemma AllHeld(s: State)
    ensures forall i :: 0 <= i < |Slots(s)| ==> Slots(s)[i].id in Held(s)
  {
    hide Slots;
    forall i | 0 <= i < |Slots(s)| ensures Slots(s)[i].id in Held(s) {
      HeldBySlots(s, i);
    }
  }

  /** Whatever other clients do to the pool, they neither take nor return our buffers. */
  lemma OthersLeaveOurs(c: Config, s: State, e: P.Event)
    requires Owned(s) && Enabled(c, s, Other(e))
    ensures Owned(Apply(c, s, Other(e)))
  {
    hide Enabled, Apply, Held, Slots, P.Inv;
    OtherEvent(c, s, e);
    AllHeld(s);
  }

  lemma OwnedStep(c: Config, s: State, a: Action)
    requires Owned(s) && ProducerSane(c, s) && Enabled(c, s, a)
    ensures Owned(Apply(c, s, a))
  {
    hide Enabled, Apply, Slots, P.Inv, ProducerSane;
    if HeadLeaves(a) {
      PutBackOwned(c, s, a);
    } else if a.GetBuffer? {
      TakenOwned(c, s);
    } else if a.Other? {
      OthersLeaveOurs(c, s, a.e);
    } else {
      SlotsStay(c, s, a);
      PoolStays(c, s, a);
    }
  }

  lemma UnreadStep(c: Config, s: State, a: Action)
    requires Unread(s) && Enabled(c, s, a)
    ensures Unread(Apply(c, s, a))
  {
    if !a.Receive? && !a.DropReady? && !a.Send? && !a.ReadInput? {
      ReadyStays(c, s, a);
    }
  }

  lemma ReadyStays(c: Config, s: State, a: Action)
    requires Enabled(c, s, a) && !a.Receive? && !a.DropReady? && !a.Send? && !a.ReadInput?
    ensures Apply(c, s, a).ready == s.ready
    ensures Apply(c, s, a).prod.Sending? ==> Apply(c, s, a).prod == s.prod
  {
    match a {
      case TakeToken => case Leave => case GetBuffer => case CloseReady => case CloseExited =>
      case Release => case PayToken => case Take(_) => case Move(_) => case NoteError =>
      case StopInput => case BeginAbandon => case DropCur => case Other(_) =>
    }
  }

  lemma MissedStep(c: Config, s: State, a: Action)
    requires InLine(c, s) && MissedForGood(s) && Enabled(c, s, a)
    ensures MissedForGood(Apply(c, s, a))
  {
    if a.Release? && s.cur.value.err.Some? {
      ReleaseOfLast(c, s);
    }
  }

  lemma ReleaseOfLast(c: Config, s: State)
    requires InLine(c, s) && Enabled(c, s, Release) && s.cur.value.err.Some?
    ensures s.ready == [] && Returning(s.prod)
  {
    HeadStart(c, s);
    assert |Line(s)| == 1;
    assert FaultInLine(Line(s));
  }

  // ---- the soft start ---------------------------------------------------------------------

  lemma Pow2Small()
    ensures Pow2(0) == 1 && Pow2(1) == 2 && Pow2(2) == 4 && Pow2(3) == 8 && Pow2(4) == 16
    ensures Pow2(5) == 32 && Pow2(6) == 64 && Pow2(7) == 128 && Pow2(8) == 256
  {
    assert Pow2(4) == 16;
    assert Pow2(8) == 2 * Pow2(7) == 4 * Pow2(6) == 8 * Pow2(5) == 16 * Pow2(4);
  }

  lemma {:induction false} Pow2Grows(k: nat)
    requires k >= 8
    ensures Pow2(k) >= 256
  {
    if k == 8 {
      Pow2Small();
    } else {
      Pow2Grows(k - 1);
    }
  }

  /** From the ninth on every buffer is a full one. */
  lemma FullFromNinth(k: nat)
    requires k >= 8
    ensures BufferLength(k) == BUFFER_SIZE
  {
    hide Pow2;
    Pow2Grows(k);
  }

  lemma LengthDoubles(k: nat)
    ensures BufferLength(k + 1) == if BufferLength(k) < BUFFER_SIZE then 2 * BufferLength(k) else BUFFER_SIZE
    ensures 0 < BufferLength(k) <= BUFFER_SIZE
  {
    if k >= 8 {
      FullFromNinth(k);
      FullFromNinth(k + 1);
    } else {
      Pow2Small();
      hide Pow2;
      assert k == 0 || k == 1 || k == 2 || k == 3 || k == 4 || k == 5 || k == 6 || k == 7;
    }
  }

  /** In closed form: the eight short buffers together hold 4096 bytes less than a full one. */
  lemma {:induction false} BeginsAt(k: nat)
    ensures Begins(k) == if k <= 8 then SOFT_START * (Pow2(k) - 1) else SOFT_START * 255 + (k - 8) * BUFFER_SIZE
  {
    Pow2Small();
    if k > 0 {
      BeginsAt(k - 1);
      hide Pow2;
      if k > 8 {
        FullFromNinth(k - 1);
      } else {
        assert k == 1 || k == 2 || k == 3 || k == 4 || k == 5 || k == 6 || k == 7 || k == 8;
      }
    }
  }

  lemma SoftHeadLeaves(c: Config, s: State, a: Action)
    requires SoftStarted(s) && Enabled(c, s, a) && HeadLeaves(a)
    ensures SoftStarted(Apply(c, s, a))
  {
    hide Enabled, Apply, Line, Slots, Held, BufferLength, Begins, IsKth;
    LineHeadLeaves(c, s, a);
    LeavesCounts(c, s, a);
    Footprint(c, s, a);
    var line := Line(s);
    forall i | 0 <= i < |line| - 1 ensures IsKth(line[1..][i], s.returned + 1 + i) {
      assert IsKth(line[i + 1], s.returned + (i + 1));
    }
  }

  lemma LeavesCounts(c: Config, s: State, a: Action)
    requires Enabled(c, s, a) && HeadLeaves(a)
    ensures Apply(c, s, a).taken == s.taken && Apply(c, s, a).returned == s.returned + 1
  {
    hide *;
    SlotsHeadLeaves(c, s, a);
    PutBackPool(c, s, a);
  }

  lemma SoftHeadMoves(c: Config, s: State, a: Action)
    requires SoftStarted(s) && Enabled(c, s, a) && HeadMoves(a)
    ensures SoftStarted(Apply(c, s, a))
  {
    hide Enabled, Apply, Line, Slots, Held, BufferLength, Begins;
    LineHeadMoves(c, s, a);
    HeadMovesWithin(c, s, a);
    PoolStays(c, s, a);
    Footprint(c, s, a);
    var line, moved := Line(s), Line(Apply(c, s, a));
    forall i | 0 <= i < |line| ensures IsKth(moved[i], s.returned + i) {
      assert IsKth(line[i], s.returned + i);
    }
  }

  lemma SoftGetBuffer(c: Config, s: State)
    requires SoftStarted(s) && Owned(s) && Enabled(c, s, GetBuffer)
    ensures SoftStarted(Apply(c, s, GetBuffer))
  {
    hide BufferLength, Begins, IsKth, P.Inv, Apart;
    LineStays(c, s, GetBuffer);
    LengthDoubles(s.taken);
    P.GetKeepsInv(PoolConfig, s.pool);
    GrantedCounts(s);
    TakesSlice(c, s);
  }

  lemma GrantedCounts(s: State)
    requires Owned(s) && s.prod.Granted?
    ensures s.taken == s.returned + |Line(s)|
  {
    hide P.Inv, Apart;
  }

  lemma TakesSlice(c: Config, s: State)
    requires Enabled(c, s, GetBuffer) && P.Got(PoolConfig, s.pool).len == BUFFER_SIZE
    ensures
      var t := Apply(c, s, GetBuffer);
      && t.prod.Filling? && t.prod.buf.len == (if s.size < BUFFER_SIZE then s.size else BUFFER_SIZE)
      && t.taken == s.taken + 1 && t.returned == s.returned && t.pos == s.pos
      && t.size == if s.size < BUFFER_SIZE then 2 * s.size else s.size
  {
    hide P.Got, P.AfterGet, Line, Slots, Held;
  }

  lemma FilledIsKth(c: Config, pos: nat, buf: P.Slice, eager: bool, k: nat)
    requires pos <= |c.input| && buf.len <= buf.cap && pos == Begins(k) && buf.len == BufferLength(k)
    ensures IsKth(Filled(c, pos, buf, eager), k)
  {
    hide Begins, BufferLength;
  }

  lemma SoftReadInput(c: Config, s: State, a: Action)
    requires SoftStarted(s) && Enabled(c, s, a) && a.ReadInput?
    ensures SoftStarted(Apply(c, s, a))
  {
    hide BufferLength, Begins, IsKth, Line, Slots, Held, Filled;
    LineGrows(c, s, a);
    PoolStays(c, s, a);
    FilledIsKth(c, s.pos, s.prod.buf, a.eager, s.taken - 1);
  }

  lemma SoftSend(c: Config, s: State)
    requires SoftStarted(s) && InLine(c, s) && Enabled(c, s, Send)
    ensures SoftStarted(Apply(c, s, Send))
  {
    hide BufferLength, Slots, Held;
    LineStays(c, s, Send);
    PoolStays(c, s, Send);
    var n := |Line(s)| - 1;
    assert Line(s)[n] == s.prod.b && IsKth(Line(s)[n], s.returned + n);
    assert Begins(s.returned + n + 1) == Begins(s.returned + n) + BufferLength(s.returned + n);
  }

  lemma SoftTurn(c: Config, s: State, a: Action)
    requires SoftStarted(s) && Enabled(c, s, a)
    requires IsProducer(a) && !a.GetBuffer? && !a.ReadInput? && !a.Send?
    ensures SoftStarted(Apply(c, s, a))
  {
    hide BufferLength, Begins, IsKth, Line, Slots, Held;
    LineStays(c, s, a);
    match a {
      case TakeToken => case Leave => case CloseReady => case CloseExited =>
    }
  }

  lemma OtherCounts(c: Config, s: State, a: Action)
    requires Enabled(c, s, a) && a.Other?
    ensures Apply(c, s, a).taken == s.taken && Apply(c, s, a).returned == s.returned
  {
    hide P.Apply, P.Enabled, Held;
  }

  lemma SoftOthers(c: Config, s: State, a: Action)
    requires SoftStarted(s) && Enabled(c, s, a) && !IsProducer(a) && !HeadLeaves(a) && !HeadMoves(a)
    ensures SoftStarted(Apply(c, s, a))
  {
    hide Enabled, Apply, Line, Slots, Held, BufferLength, Begins, KthInLine;
    LineStays(c, s, a);
    Footprint(c, s, a);
    if a.Other? {
      OtherCounts(c, s, a);
    } else {
      PoolStays(c, s, a);
    }
  }

  lemma SoftStartStep(c: Config, s: State, a: Action)
    requires SoftStarted(s) && InLine(c, s) && Owned(s) && Enabled(c, s, a)
    ensures SoftStarted(Apply(c, s, a))
  {
    hide *;
    if a.GetBuffer? {
      SoftGetBuffer(c, s);
    } else if a.ReadInput? {
      SoftReadInput(c, s, a);
    } else if a.Send? {
      SoftSend(c, s);
    } else if IsProducer(a) {
      SoftTurn(c, s, a);
    } else if HeadLeaves(a) {
      SoftHeadLeaves(c, s, a);
    } else if HeadMoves(a) {
      SoftHeadMoves(c, s, a);
    } else {
      SoftOthers(c, s, a);
    }
  }

  lemma StepKeepsInv(c: Config, s: State, a: Action)
    requires Inv(c, s) && Enabled(c, s, a)
    ensures Inv(c, Apply(c, s, a))
  {
    hide Enabled, Apply, SoftStarted, TokensConserved, ProducerSane, Owned, InLine, Unread, Positioned, ErrorLast, ErrorKept, MissedForGood;
    SoftStartStep(c, s, a);
    PoolOwned(s);
    TokensStep(c, s, a);
    P.GetKeepsInv(PoolConfig, s.pool);
    ProducerStep(c, s, a);
    OwnedStep(c, s, a);
    InLineStep(c, s, a);
    UnreadStep(c, s, a);
    PositionedStep(c, s, a);
    ErrorLastStep(c, s, a);
    ErrorKeptStep(c, s, a);
    MissedStep(c, s, a);
  }

  lemma PoolOwned(s: State)
    requires Owned(s)
    ensures P.Inv(PoolConfig, s.pool)
  {
  }
}

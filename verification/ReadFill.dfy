/** ReadFill of pkg/asyncreader/asyncreader.go, on a real buffer and a reader that may return
    less than it is asked for. */
module ReadFill {
  import opened Basics
  import R = ReadAhead
  import P = BufferPool

  /** copy(buf[from:], data). */
  method CopyAt(buf: array<byte>, from: nat, data: Bytes)
    requires from + |data| <= buf.Length
    modifies buf
    ensures buf[..] == old(buf[..from]) + data + old(buf[from + |data|..])
  {
    ghost var before := buf[..];
    for i := 0 to |data|
      invariant buf[..] == before[..from] + data[..i] + before[from + i..]
    {
      ghost var now := buf[..];
      assert data[..i + 1] == data[..i] + [data[i]];
      buf[from + i] := data[i];
      assert buf[..] == now[from + i := data[i]];
    }
    assert data[..|data|] == data;
  }

  /** An io.Reader over rest, which ends in fault.  moves says how much it is willing to give
      at each call, for as long as it lasts; 0 is allowed.  An eager reader reports its error
      together with the last byte, another one only when asked again. */
  class Source {
    var rest: Bytes
    var moves: seq<nat>
    const fault: R.Fault
    const eager: bool

    constructor (rest: Bytes, moves: seq<nat>, fault: R.Fault, eager: bool)
      ensures this.rest == rest && this.moves == moves && this.fault == fault && this.eager == eager
    {
      this.rest, this.moves, this.fault, this.eager := rest, moves, fault, eager;
    }

    /** Calls this reader can still answer without giving a byte or its error. */
    ghost function Patience(): nat
      reads this
    {
      |moves| + |rest|
    }

    /** Read(buf[from:]). */
    method Read(buf: array<byte>, from: nat) returns (nn: nat, err: Option<R.Fault>)
      requires from < buf.Length
      modifies this, buf
      ensures from + nn <= buf.Length && nn <= |old(rest)| && rest == old(rest)[nn..]
      ensures buf[..from] == old(buf[..from]) && buf[from..from + nn] == old(rest)[..nn]
      ensures buf[from + nn..] == old(buf[from + nn..])
      ensures err == if old(rest) == [] || (eager && rest == []) then Some(fault) else None
      ensures err.None? ==> Patience() < old(Patience())
    {
      var want := buf.Length - from;
      if moves != [] {
        if moves[0] < want {
          want := moves[0];
        }
        moves := moves[1..];
      }
      nn := if want < |rest| then want else |rest|;
      ghost var before := buf[..];
      CopyAt(buf, from, rest[..nn]);
      ghost var after := buf[..];
      assert buf[..from] == after[..from] == before[..from];
      assert buf[from..from + nn] == after[from..from + nn] == rest[..nn];
      assert buf[from + nn..] == after[from + nn..] == before[from + nn..];
      err := if rest == [] || (eager && nn == |rest|) then Some(fault) else None;
      rest := rest[nn..];
    }
  }

  /** However short the reads, the buffer ends up with what ReadAhead.Filled says, and the
      rest of it and of the input are untouched. */
  method Fill(r: Source, buf: array<byte>) returns (n: nat, err: Option<R.Fault>)
    requires buf.Length > 0
    modifies r, buf
    ensures n <= buf.Length && n <= |old(r.rest)|
    ensures buf[..n] == old(r.rest)[..n] && buf[n..] == old(buf[..])[n..]
    ensures r.rest == old(r.rest)[n..]
    ensures
      var b := R.Filled(R.Config(old(r.rest), r.fault, 1), 0, P.Slice(0, buf.Length, buf.Length), r.eager);
      n == |b.data| && buf[..n] == b.data && err == b.err
  {
    ghost var all, before := r.rest, buf[..];
    n, err := 0, None;
    while n < buf.Length && err.None?
      invariant n <= buf.Length && n <= |all| && r.rest == all[n..]
      invariant buf[..n] == all[..n] && buf[n..] == before[n..]
      invariant err.Some? ==> err.value == r.fault && r.rest == [] && (n < buf.Length || r.eager)
      invariant err.None? && n == |all| > 0 && r.eager ==> false
      decreases err.None?, r.Patience()
    {
      var nn;
      ghost var m := n;
      nn, err := r.Read(buf, n);
      n := n + nn;
      assert buf[..n] == buf[..m] + buf[m..n];
      assert all[..n] == all[..m] + all[m..][..nn];
      assert buf[n..] == before[m..][nn..];
    }
  }
}

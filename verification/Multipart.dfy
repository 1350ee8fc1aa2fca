/** Multipart upload over any run of uploadPart requests: what the temporary file and the part
    rows hold afterwards, when the file is the client's file, and when the two composite
    digests computed at completion agree. */
module Multipart {
  import opened Basics
  import opened Text
  import opened Sorting
  import opened ChunkHash

  /** One request: the index, the bytes of the body, and the digest the client claims. */
  datatype Attempt = Attempt(idx: nat, body: Bytes, claimed: string)

  /** The temporary file and the part rows of one upload. */
  datatype Upload = Upload(file: Bytes, rows: map<nat, string>)

  // ---- what a request does ------------------------------------------------------------

  function Padded(file: Bytes, n: nat): (r: Bytes)
    ensures |r| >= n && |r| >= |file|
  {
    if |file| < n then file + seq(n - |file|, _ => 0) else file
  }

  /** Seek and write: a gap before the offset reads as zeros; no bytes, no change. */
  function WriteAt(file: Bytes, off: nat, body: Bytes): Bytes {
    if body == [] then file
    else
      var p := Padded(file, off + |body|);
      p[..off] + body + p[off + |body|..]
  }

  predicate Accepted(h: Hash, a: Attempt) {
    Hex(h(a.body)) == a.claimed
  }

  /** Where the part at index i goes. */
  function Offset(c: nat, i: nat): nat {
    i * c
  }

  /** The file is written before the digest is compared; only a match records the row. */
  function Uploaded(h: Hash, c: nat, u: Upload, a: Attempt): Upload {
    Upload(WriteAt(u.file, Offset(c, a.idx), a.body),
           if Accepted(h, a) then u.rows[a.idx := Hex(h(a.body))] else u.rows)
  }

  function Run(h: Hash, c: nat, u: Upload, s: seq<Attempt>): Upload {
    if s == [] then u else Uploaded(h, c, Run(h, c, u, s[..|s| - 1]), s[|s| - 1])
  }

  // ---- the file after any run: at every position the last write wins --------------------

  function Cell(file: Bytes, p: nat): Option<byte> {
    if p < |file| then Some(file[p]) else None
  }

  predicate Covers(a: Attempt, c: nat, p: nat) {
    Offset(c, a.idx) <= p < Offset(c, a.idx) + |a.body|
  }

  /** The last attempt, accepted or not, whose body covers position p. */
  function LastCover(s: seq<Attempt>, c: nat, p: nat): (r: Option<nat>)
    ensures r.Some? ==> r.value < |s| && Covers(s[r.value], c, p)
    ensures forall j :: (if r.Some? then r.value < j else 0 <= j) && j < |s| ==> !Covers(s[j], c, p)
  {
    if s == [] then None
    else if Covers(s[|s| - 1], c, p) then Some(|s| - 1)
    else LastCover(s[..|s| - 1], c, p)
  }

  /** Where a write ends; one of no bytes extends nothing. */
  function Past(a: Attempt, c: nat): nat {
    if a.body == [] then 0 else Offset(c, a.idx) + |a.body|
  }

  /** How far a file of n bytes reaches once the attempts are written. */
  function Reach(n: nat, c: nat, s: seq<Attempt>): nat {
    if s == [] then n
    else
      var m, e := Reach(n, c, s[..|s| - 1]), Past(s[|s| - 1], c);
      if e > m then e else m
  }

  lemma WrittenCell(file: Bytes, c: nat, a: Attempt, p: nat)
    ensures |WriteAt(file, Offset(c, a.idx), a.body)| == if Past(a, c) > |file| then Past(a, c) else |file|
    ensures Cell(WriteAt(file, Offset(c, a.idx), a.body), p)
         == if Covers(a, c, p) then Some(a.body[p - Offset(c, a.idx)])
            else if p < |file| then Some(file[p])
            else if p < Past(a, c) then Some(0)
            else None
  {
  }

  lemma {:induction false} FileLength(h: Hash, c: nat, u: Upload, s: seq<Attempt>)
    ensures |Run(h, c, u, s).file| == Reach(|u.file|, c, s)
  {
    hide WriteAt, Past;
    if s != [] {
      FileLength(h, c, u, s[..|s| - 1]);
      WrittenCell(Run(h, c, u, s[..|s| - 1]).file, c, s[|s| - 1], 0);
    }
  }

  /** Every byte of the file is that of the last body to cover it; where no body does, it is
      the byte that was there, or zero up to the file's reach. */
  lemma {:induction false} LastWriteWins(h: Hash, c: nat, u: Upload, s: seq<Attempt>, p: nat)
    ensures Cell(Run(h, c, u, s).file, p)
         == match LastCover(s, c, p)
            case Some(k) => Some(s[k].body[p - Offset(c, s[k].idx)])
            case None => if p < |u.file| then Some(u.file[p])
                         else if p < Reach(|u.file|, c, s) then Some(0)
                         else None
  {
    hide WriteAt, Past;
    if s != [] {
      var before, a := s[..|s| - 1], s[|s| - 1];
      LastWriteWins(h, c, u, before, p);
      FileLength(h, c, u, before);
      WrittenCell(Run(h, c, u, before).file, c, a, p);
      assert Run(h, c, u, s).file == WriteAt(Run(h, c, u, before).file, Offset(c, a.idx), a.body);
      hide Run;
    }
  }

  /** The byte the attempts leave at position p, when the file reaches that far. */
  function LeftAt(u: Upload, c: nat, s: seq<Attempt>, p: nat): byte {
    match LastCover(s, c, p)
    case Some(k) => s[k].body[p - Offset(c, s[k].idx)]
    case None => if p < |u.file| then u.file[p] else 0
  }

  /** The attempts reach exactly as far as f and leave its bytes behind. */
  ghost predicate Leaves(u: Upload, c: nat, s: seq<Attempt>, f: Bytes) {
    Reach(|u.file|, c, s) == |f| && forall p :: 0 <= p < |f| ==> LeftAt(u, c, s, p) == f[p]
  }

  lemma LeftCell(h: Hash, c: nat, u: Upload, s: seq<Attempt>, p: nat)
    ensures |Run(h, c, u, s).file| == Reach(|u.file|, c, s)
    ensures p < Reach(|u.file|, c, s) ==> Run(h, c, u, s).file[p] == LeftAt(u, c, s, p)
  {
    FileLength(h, c, u, s);
    LastWriteWins(h, c, u, s, p);
    hide Run, Reach, LastCover;
  }

  /** The law of the file, for any attempts at all, of any length and with any verdict: it is f
      exactly when they reach as far as f and the last body to cover each position, or else
      what was there, has the byte of f. */
  lemma FileIff(h: Hash, f: Bytes, c: nat, u: Upload, s: seq<Attempt>)
    ensures Run(h, c, u, s).file == f <==> Leaves(u, c, s, f)
  {
    var g := Run(h, c, u, s).file;
    LeftCell(h, c, u, s, 0);
    forall p | 0 <= p < Reach(|u.file|, c, s) ensures g[p] == LeftAt(u, c, s, p) {
      LeftCell(h, c, u, s, p);
    }
    hide Run, Reach, LeftAt;
    if Leaves(u, c, s, f) {
      assert g == f;
    }
  }

  // ---- the rows after any run: the last accepted attempt at each index -------------------

  function LastAccepted(h: Hash, s: seq<Attempt>, i: nat): (r: Option<nat>)
    ensures r.Some? ==> r.value < |s| && s[r.value].idx == i && Accepted(h, s[r.value])
    ensures forall j :: (if r.Some? then r.value < j else 0 <= j) && j < |s| ==> !(s[j].idx == i && Accepted(h, s[j]))
  {
    if s == [] then None
    else if s[|s| - 1].idx == i && Accepted(h, s[|s| - 1]) then Some(|s| - 1)
    else LastAccepted(h, s[..|s| - 1], i)
  }

  lemma {:induction false} RowIsLastAccepted(h: Hash, c: nat, u: Upload, s: seq<Attempt>, i: nat)
    ensures match LastAccepted(h, s, i)
            case Some(k) => i in Run(h, c, u, s).rows && Run(h, c, u, s).rows[i] == s[k].claimed == Hex(h(s[k].body))
            case None =>
              && (i in Run(h, c, u, s).rows <==> i in u.rows)
              && (i in u.rows ==> Run(h, c, u, s).rows[i] == u.rows[i])
  {
    hide WriteAt;
    if s != [] {
      RowIsLastAccepted(h, c, u, s[..|s| - 1], i);
    }
  }

  // ---- uploading a file ------------------------------------------------------------------

  /** The last attempt at index i, accepted or not. */
  function LastAt(s: seq<Attempt>, i: nat): (r: Option<nat>)
    ensures r.Some? ==> r.value < |s| && s[r.value].idx == i
    ensures forall j :: (if r.Some? then r.value < j else 0 <= j) && j < |s| ==> s[j].idx != i
  {
    if s == [] then None
    else if s[|s| - 1].idx == i then Some(|s| - 1)
    else LastAt(s[..|s| - 1], i)
  }

  /** Every attempt is at an index of the file and its body is no longer than that chunk. */
  ghost predicate Fits(f: Bytes, c: nat, s: seq<Attempt>)
    requires c > 0
  {
    forall k :: 0 <= k < |s| ==>
      s[k].idx < Chunks(|f|, c) && Offset(c, s[k].idx) + |s[k].body| <= End(|f|, c, s[k].idx)
  }

  /** Whatever was there before lies within the file and its indices. */
  ghost predicate StartsWithin(f: Bytes, c: nat, u: Upload)
    requires c > 0
  {
    |u.file| <= |f| && forall i :: i in u.rows ==> i < Chunks(|f|, c)
  }

  /** The last attempt at every index has a full body. */
  ghost predicate LastFull(f: Bytes, c: nat, s: seq<Attempt>)
    requires c > 0
  {
    forall i :: 0 <= i < Chunks(|f|, c) ==>
      LastAt(s, i).Some? && Offset(c, i) + |s[LastAt(s, i).value].body| == End(|f|, c, i)
  }

  ghost predicate IsChunk(f: Bytes, c: nat, i: nat, body: Bytes)
    requires c > 0 && i < Chunks(|f|, c)
  {
    Starts(|f|, c, i);
    body == Chunk(f, c, i)
  }

  /** The last attempt at every index sends that chunk. */
  ghost predicate LastIsChunk(f: Bytes, c: nat, s: seq<Attempt>)
    requires c > 0
  {
    forall i :: 0 <= i < Chunks(|f|, c) ==> LastAt(s, i).Some? && IsChunk(f, c, i, s[LastAt(s, i).value].body)
  }

  ghost predicate LastAccepting(h: Hash, f: Bytes, c: nat, s: seq<Attempt>)
    requires c > 0
  {
    forall i :: 0 <= i < Chunks(|f|, c) ==> LastAt(s, i).Some? && Accepted(h, s[LastAt(s, i).value])
  }

  lemma Owner(n: nat, c: nat, p: nat) returns (i: nat)
    requires c > 0 && p < n
    ensures i < Chunks(n, c) && Offset(c, i) <= p < End(n, c, i)
  {
    i := p / c;
    Divides(p, c);
    Starts(n, c, i);
  }

  /** A body that fits can only cover positions of its own chunk. */
  lemma OwnChunk(n: nat, c: nat, i: nat, j: nat, p: nat)
    requires Offset(c, i) <= p < End(n, c, i)
    requires Offset(c, j) <= p < End(n, c, j)
    ensures i == j
  {
    if i < j {
      Multiply(i + 1, j, c);
    } else if j < i {
      Multiply(j + 1, i, c);
    }
  }

  lemma LastCoverIsLastAt(f: Bytes, c: nat, s: seq<Attempt>, i: nat, p: nat)
    requires c > 0 && Fits(f, c, s) && i < Chunks(|f|, c) && Offset(c, i) <= p < End(|f|, c, i)
    requires LastAt(s, i).Some? && Covers(s[LastAt(s, i).value], c, p)
    ensures LastCover(s, c, p) == LastAt(s, i)
  {
    var k := LastCover(s, c, p).value;
    OwnChunk(|f|, c, i, s[k].idx, p);
  }

  lemma {:induction false} ReachWithin(f: Bytes, c: nat, n: nat, s: seq<Attempt>)
    requires c > 0 && Fits(f, c, s) && n <= |f|
    ensures Reach(n, c, s) <= |f|
  {
    if s != [] {
      ReachWithin(f, c, n, s[..|s| - 1]);
    }
  }

  lemma LastFullAt(f: Bytes, c: nat, s: seq<Attempt>, i: nat)
    requires c > 0 && LastFull(f, c, s) && i < Chunks(|f|, c)
    ensures LastAt(s, i).Some? && Offset(c, i) + |s[LastAt(s, i).value].body| == End(|f|, c, i) <= |f|
  {
  }

  /** Byte q of chunk i is byte q of the last body at index i. */
  lemma FileByte(h: Hash, f: Bytes, c: nat, u: Upload, s: seq<Attempt>, i: nat, q: nat)
    requires c > 0 && Fits(f, c, s) && LastFull(f, c, s)
    requires i < Chunks(|f|, c) && Offset(c, i) + q < End(|f|, c, i)
    ensures LastAt(s, i).Some? && q < |s[LastAt(s, i).value].body|
    ensures Cell(Run(h, c, u, s).file, Offset(c, i) + q) == Some(s[LastAt(s, i).value].body[q])
  {
    hide *;
    LastFullAt(f, c, s, i);
    assert q < |s[LastAt(s, i).value].body|;
    LastBodyCovers(c, s, i, q);
    LastCoverIsLastAt(f, c, s, i, Offset(c, i) + q);
    LastWriteWins(h, c, u, s, Offset(c, i) + q);
  }

  lemma LastBodyCovers(c: nat, s: seq<Attempt>, i: nat, q: nat)
    requires LastAt(s, i).Some? && q < |s[LastAt(s, i).value].body|
    ensures Covers(s[LastAt(s, i).value], c, Offset(c, i) + q)
  {
    hide LastAt, Offset;
  }

  lemma FileAsLong(h: Hash, f: Bytes, c: nat, u: Upload, s: seq<Attempt>)
    requires c > 0 && Fits(f, c, s) && LastFull(f, c, s) && |u.file| <= |f|
    ensures |Run(h, c, u, s).file| == |f|
  {
    FileLength(h, c, u, s);
    ReachWithin(f, c, |u.file|, s);
    if f != [] {
      var i := Owner(|f|, c, |f| - 1);
      FileByte(h, f, c, u, s, i, |f| - 1 - Offset(c, i));
    }
  }

  lemma ChunkByte(h: Hash, f: Bytes, c: nat, u: Upload, s: seq<Attempt>, p: nat)
    requires c > 0 && Fits(f, c, s) && LastFull(f, c, s) && LastIsChunk(f, c, s) && p < |f|
    ensures Cell(Run(h, c, u, s).file, p) == Some(f[p])
  {
    hide Run, Chunks, Fits, LastFull;
    var i := Owner(|f|, c, p);
    FileByte(h, f, c, u, s, i, p - Offset(c, i));
    assert IsChunk(f, c, i, s[LastAt(s, i).value].body);
  }

  lemma ChunksMakeFile(h: Hash, f: Bytes, c: nat, u: Upload, s: seq<Attempt>)
    requires c > 0 && Fits(f, c, s) && LastFull(f, c, s) && LastIsChunk(f, c, s) && |u.file| <= |f|
    ensures Run(h, c, u, s).file == f
  {
    hide Run, Chunks, Fits, LastFull, LastIsChunk;
    FileAsLong(h, f, c, u, s);
    forall p | 0 <= p < |f| ensures Run(h, c, u, s).file[p] == f[p] {
      ChunkByte(h, f, c, u, s, p);
    }
  }

  lemma ChunkByBytes(f: Bytes, c: nat, i: nat, body: Bytes)
    requires c > 0 && i < Chunks(|f|, c) && Offset(c, i) + |body| == End(|f|, c, i) <= |f|
    requires forall q :: 0 <= q < |body| ==> Cell(f, Offset(c, i) + q) == Some(body[q])
    ensures IsChunk(f, c, i, body)
  {
    var off := Offset(c, i);
    assert Chunk(f, c, i) == f[off..off + |body|];
    hide Chunks, End, Chunk;
    forall q | 0 <= q < |body| ensures body[q] == f[off + q] {
      assert Cell(f, off + q) == Some(body[q]);
    }
    assert body == f[off..off + |body|];
  }

  lemma FileMakesChunks(h: Hash, f: Bytes, c: nat, u: Upload, s: seq<Attempt>, i: nat)
    requires c > 0 && Fits(f, c, s) && LastFull(f, c, s) && i < Chunks(|f|, c)
    requires Run(h, c, u, s).file == f
    ensures LastAt(s, i).Some? && IsChunk(f, c, i, s[LastAt(s, i).value].body)
  {
    hide *;
    LastFullAt(f, c, s, i);
    var body := s[LastAt(s, i).value].body;
    forall q | 0 <= q < |body| ensures Cell(f, Offset(c, i) + q) == Some(body[q]) {
      FileByte(h, f, c, u, s, i, q);
    }
    ChunkByBytes(f, c, i, body);
  }

  /** When the last body at every index has its chunk's length, the file is the client's file
      exactly when every last body is its chunk: whatever the order, the repetitions and the
      verdicts of the attempts. */
  lemma FullBodiesIff(h: Hash, f: Bytes, c: nat, u: Upload, s: seq<Attempt>)
    requires c > 0 && Fits(f, c, s) && LastFull(f, c, s) && |u.file| <= |f|
    ensures Run(h, c, u, s).file == f <==> LastIsChunk(f, c, s)
  {
    if LastIsChunk(f, c, s) {
      ChunksMakeFile(h, f, c, u, s);
    }
    if Run(h, c, u, s).file == f {
      forall i | 0 <= i < Chunks(|f|, c) ensures LastAt(s, i).Some? && IsChunk(f, c, i, s[LastAt(s, i).value].body) {
        FileMakesChunks(h, f, c, u, s, i);
      }
    }
  }

  lemma ChunksAreFull(f: Bytes, c: nat, s: seq<Attempt>)
    requires c > 0 && LastIsChunk(f, c, s)
    ensures LastFull(f, c, s)
  {
    forall i | 0 <= i < Chunks(|f|, c) ensures LastAt(s, i).Some? && Offset(c, i) + |s[LastAt(s, i).value].body| == End(|f|, c, i) {
      assert IsChunk(f, c, i, s[LastAt(s, i).value].body);
      Partition(|f|, c, i);
    }
  }

  // ---- composite digests ----------------------------------------------------------------

  /** The decoded digests appended in turn; an undecodable one is an error. */
  function Joined(parts: seq<Entry<string>>): Option<Bytes> {
    if parts == [] then Some([])
    else
      var before, last := Joined(parts[..|parts| - 1]), Unhex(parts[|parts| - 1].value);
      if before.None? || last.None? then None else Some(before.value + last.value)
  }

  datatype Composite = Composite(tag: string) | Undecodable | NoParts

  /** CompletePart: the digest it expects, from the stored rows. */
  function ServerTag(h: Hash, rows: seq<Entry<string>>): Composite {
    var sorted := Sort(rows);
    match Joined(sorted)
    case None => Undecodable
    case Some(b) =>
      if |sorted| == 0 then NoParts
      else if |sorted| == 1 then Composite(sorted[0].value)
      else Composite(Tag(h(b), |sorted|))
  }

  /** completePart: the digest it derives from the client's list. */
  function ClientTag(h: Hash, parts: seq<Entry<string>>): Composite {
    var sorted := Sort(parts);
    match Joined(sorted)
    case None => Undecodable
    case Some(b) => if |sorted| > 1 then Composite(Tag(h(b), |sorted|)) else Composite(Hex(h(b)))
  }

  /** The completion becomes DONE. */
  predicate Completes(h: Hash, parts: seq<Entry<string>>, rows: seq<Entry<string>>) {
    ClientTag(h, parts).Composite? && ServerTag(h, rows) == ClientTag(h, parts)
  }

  /** The rows in whatever order the database lists them. */
  ghost predicate Lists(listing: seq<Entry<string>>, rows: map<nat, string>) {
    && Distinct(listing)
    && (forall k :: 0 <= k < |listing| ==> listing[k].idx in rows && rows[listing[k].idx] == listing[k].value)
    && (forall i :: i in rows ==> Entry(i, rows[i]) in listing)
  }

  /** With two or more rows, a client that lists them in any order computes the server's
      digest, so the upload completes unless a stored digest cannot be decoded. */
  lemma AnyOrderCompletes(h: Hash, parts: seq<Entry<string>>, rows: seq<Entry<string>>)
    requires Distinct(rows) && |rows| >= 2 && multiset(parts) == multiset(rows)
    ensures ClientTag(h, parts) == ServerTag(h, rows)
    ensures Completes(h, parts, rows) <==> Joined(Sort(rows)).Some?
  {
    hide Joined;
    SortOfPermutation(rows, parts);
    SortSpec(rows);
  }

  lemma TagLength(d: Digest, n: nat)
    ensures |Tag(d, n)| > 32
  {
    assert |Hex(d)| == 32;
  }

  /** Exactly when a completion of two or more stored parts is accepted. */
  lemma CompletesIff(h: Hash, parts: seq<Entry<string>>, rows: seq<Entry<string>>)
    requires |rows| >= 2 && Joined(Sort(rows)).Some?
    ensures Completes(h, parts, rows) <==>
      && |parts| == |rows|
      && Joined(Sort(parts)).Some?
      && h(Joined(Sort(parts)).value) == h(Joined(Sort(rows)).value)
  {
    SortSpec(parts);
    SortSpec(rows);
    hide Joined, Sort, Tag, Hex;
    var b := Joined(Sort(rows)).value;
    if Joined(Sort(parts)).Some? {
      var a := Joined(Sort(parts)).value;
      if |parts| > 1 {
        if Tag(h(a), |parts|) == Tag(h(b), |rows|) {
          TagInjective(h(a), |parts|, h(b), |rows|);
        }
      } else {
        TagLength(h(b), |rows|);
      }
    }
  }

  /** Every value is the text of a 16-byte digest. */
  ghost predicate AllDigests(s: seq<Entry<string>>) {
    forall k :: 0 <= k < |s| ==> Unhex(s[k].value).Some? && |Unhex(s[k].value).value| == 16
  }

  lemma {:induction false} DigestsSplit(s: seq<Entry<string>>, t: seq<Entry<string>>)
    requires |s| == |t| && AllDigests(s) && AllDigests(t)
    ensures Joined(s).Some? && Joined(t).Some? && |Joined(s).value| == |Joined(t).value|
    ensures Joined(s) == Joined(t) ==> forall k :: 0 <= k < |s| ==> Unhex(s[k].value) == Unhex(t[k].value)
  {
    hide Unhex;
    if s != [] {
      var n := |s| - 1;
      DigestsSplit(s[..n], t[..n]);
      var a, b, x, y := Joined(s[..n]).value, Joined(t[..n]).value, Unhex(s[n].value).value, Unhex(t[n].value).value;
      if Joined(s) == Joined(t) {
        assert a == (a + x)[..|a|] == (b + y)[..|b|] == b;
        assert x == (a + x)[|a|..] == (b + y)[|b|..] == y;
      }
    }
  }

  lemma SortedDigests(s: seq<Entry<string>>)
    requires AllDigests(s)
    ensures AllDigests(Sort(s))
  {
    SortSpec(s);
    forall k | 0 <= k < |Sort(s)| ensures Unhex(Sort(s)[k].value).Some? && |Unhex(Sort(s)[k].value).value| == 16 {
      assert Sort(s)[k] in multiset(s);
    }
  }

  /** Acceptance of a list of 16-byte digests means that they are the stored ones, in index
      order, unless these very digests, joined, collide with the stored ones. */
  lemma CompletedMeansSameDigests(h: Hash, parts: seq<Entry<string>>, rows: seq<Entry<string>>)
    requires |rows| >= 2 && AllDigests(rows) && AllDigests(parts) && Completes(h, parts, rows)
    ensures |parts| == |rows| && |Sort(parts)| == |parts| && |Sort(rows)| == |rows|
    ensures Joined(Sort(parts)).Some? && Joined(Sort(rows)).Some?
    ensures || (forall k :: 0 <= k < |rows| ==> Unhex(Sort(parts)[k].value) == Unhex(Sort(rows)[k].value))
            || Collide(h, Joined(Sort(parts)).value, Joined(Sort(rows)).value)
  {
    SortSpec(parts);
    SortSpec(rows);
    SortedDigests(parts);
    SortedDigests(rows);
    hide Sort, Joined, AllDigests, Unhex;
    DigestsSplit(Sort(rows), Sort(rows));
    CompletesIff(h, parts, rows);
    DigestsSplit(Sort(parts), Sort(rows));
  }

  lemma JoinedTwo(a: Entry<string>, b: Entry<string>)
    requires Unhex(a.value).Some? && Unhex(b.value).Some?
    ensures Joined([a, b]) == Some(Unhex(a.value).value + Unhex(b.value).value)
  {
    hide Unhex;
    var x, y := Unhex(a.value).value, Unhex(b.value).value;
    assert [a, b][..1] == [a] && [a][..0] == [];
    assert [] + x == x;
    assert Joined([a]) == Some(x);
    assert Joined([a, b]) == Some(x + y);
  }

  lemma SortTwo(v: string, w: string)
    ensures Sort([Entry(0, v), Entry(1, w)]) == [Entry(0, v), Entry(1, w)]
  {
    var s := [Entry(0, v), Entry(1, w)];
    SortOfOrdered(s, s);
  }

  /** The server does not check that the client's list is made of digests: the same hex text cut
      up differently is accepted too, under any hash. */
  lemma RegroupedCompletes(h: Hash, d: Digest, e: Digest)
    ensures Completes(h, [Entry(0, ""), Entry(1, Hex(d) + Hex(e))], [Entry(0, Hex(d)), Entry(1, Hex(e))])
  {
    var parts, rows := [Entry(0, ""), Entry(1, Hex(d) + Hex(e))], [Entry(0, Hex(d)), Entry(1, Hex(e))];
    SortTwo("", Hex(d) + Hex(e));
    SortTwo(Hex(d), Hex(e));
    HexCat(d, e);
    UnhexHex(d);
    UnhexHex(e);
    UnhexHex(d + e);
    UnhexHex([]);
    assert Hex([]) == "" && [] + (d + e) == d + e;
    hide *;
    JoinedTwo(parts[0], parts[1]);
    JoinedTwo(rows[0], rows[1]);
    CompletesIff(h, parts, rows);
  }

  lemma SortOne(e: Entry<string>)
    ensures Sort([e]) == [e]
  {
    assert [e][1..] == [];
    assert Sort<string>([]) == [];
  }

  lemma JoinedOne(i: nat, d: Bytes)
    ensures Joined([Entry(i, Hex(d))]) == Some(d)
  {
    UnhexHex(d);
    assert [Entry(i, Hex(d))][..0] == [];
    assert Joined([]) == Some([]);
    assert [] + d == d;
  }

  /** One stored part, any list from the client: the server takes the stored text itself and
      the client hashes what it decoded, so the completion is accepted exactly when the list
      has at most one entry and the stored digest is the hash of the entry's bytes. */
  lemma OneRowIff(h: Hash, parts: seq<Entry<string>>, i: nat, d: Digest)
    ensures Completes(h, parts, [Entry(i, Hex(d))]) <==>
      |parts| <= 1 && Joined(Sort(parts)).Some? && h(Joined(Sort(parts)).value) == d
  {
    SortOne(Entry(i, Hex(d)));
    JoinedOne(i, d);
    SortSpec(parts);
    if Joined(Sort(parts)).Some? {
      var b := Joined(Sort(parts)).value;
      TagLength(h(b), |parts|);
      if Hex(h(b)) == Hex(d) {
        HexInjective(h(b), d);
      }
    }
    hide Joined, Sort, Hex, Tag;
  }

  /** A client that lists the stored part: its digest would have to be its own digest. */
  lemma OnePartIff(h: Hash, i: nat, body: Bytes)
    ensures var rows := [Entry(i, Hex(h(body)))];
            Completes(h, rows, rows) <==> h(h(body)) == h(body)
  {
    var e := Entry(i, Hex(h(body)));
    SortOne(e);
    JoinedOne(i, h(body));
    hide Joined, Sort, Hex;
    OneRowIff(h, [e], i, h(body));
  }

  /** A hash under which an accepted single part cannot be completed. */
  lemma OnePartRefused()
    ensures exists h: Hash, body: Bytes :: !Completes(h, [Entry(0, Hex(h(body)))], [Entry(0, Hex(h(body)))])
  {
    var h: Hash := b => if |b| == 16 then seq(16, _ => 1) else seq(16, _ => 0);
    OnePartIff(h, 0, []);
    assert h(h([]))[0] != h([])[0];
    assert !Completes(h, [Entry(0, Hex(h([])))], [Entry(0, Hex(h([])))]);
  }

  // ---- the digest of a complete upload -----------------------------------------------------

  ghost predicate RowsOf(h: Hash, f: Bytes, c: nat, rows: map<nat, string>)
    requires c > 0
  {
    && (forall i :: i in rows ==> i < Chunks(|f|, c))
    && (forall i :: 0 <= i < Chunks(|f|, c) ==> i in rows && rows[i] == Hex(SectionResult(h, f, c, i).value))
  }

  function ChunkRow(h: Hash, f: Bytes, c: nat, i: nat): Entry<string>
    requires c > 0
  {
    Entry(i, Hex(SectionResult(h, f, c, i).value))
  }

  function ChunkRows(h: Hash, f: Bytes, c: nat, k: nat): (r: seq<Entry<string>>)
    requires c > 0
    ensures |r| == k && forall i :: 0 <= i < k ==> r[i] == ChunkRow(h, f, c, i)
    ensures Ordered(r) && Distinct(r)
  {
    seq(k, i requires i >= 0 => ChunkRow(h, f, c, i))
  }

  lemma {:induction false} JoinedRows(h: Hash, f: Bytes, c: nat, k: nat)
    requires c > 0 && k <= Chunks(|f|, c)
    ensures Joined(ChunkRows(h, f, c, k)) == Some(Digests(h, f, c, k))
  {
    hide Unhex, Hex, Chunks, ChunkRows;
    if k > 0 {
      JoinedRows(h, f, c, k - 1);
      assert ChunkRows(h, f, c, k)[..k - 1] == ChunkRows(h, f, c, k - 1);
      UnhexHex(SectionResult(h, f, c, k - 1).value);
    }
  }

  /** Distinct lists of the same entries are rearrangements of each other. */
  lemma SameEntries(a: seq<Entry<string>>, b: seq<Entry<string>>)
    requires Distinct(a) && Distinct(b)
    requires forall e :: e in a ==> e in b
    requires forall e :: e in b ==> e in a
    ensures multiset(a) == multiset(b)
  {
    forall e: Entry<string> ensures multiset(a)[e] == multiset(b)[e] {
      DistinctCount(a, e);
      DistinctCount(b, e);
      assert e in multiset(a) <==> e in a;
      assert e in multiset(b) <==> e in b;
    }
  }

  lemma ListedRows(h: Hash, f: Bytes, c: nat, rows: map<nat, string>, listing: seq<Entry<string>>)
    requires c > 0 && RowsOf(h, f, c, rows) && Lists(listing, rows)
    ensures Sort(listing) == ChunkRows(h, f, c, Chunks(|f|, c))
  {
    var all := ChunkRows(h, f, c, Chunks(|f|, c));
    hide Chunks, SectionResult, Hex, Sort;
    forall e | e in listing ensures e in all {
      assert e == all[e.idx];
    }
    forall e | e in all ensures e in listing {
      assert Entry(e.idx, rows[e.idx]) in listing;
    }
    SameEntries(all, listing);
    SortOfOrdered(all, listing);
  }

  /** Once the rows are those of a file, CompletePart computes the digest that the chunk
      hasher computes on the file, in whatever order the database lists the rows. */
  lemma ServerTagIsETag(h: Hash, f: Bytes, c: nat, rows: map<nat, string>, listing: seq<Entry<string>>)
    requires c > 0 && f != [] && RowsOf(h, f, c, rows) && Lists(listing, rows)
    ensures ServerTag(h, listing) == Composite(ETag(h, f, c))
  {
    hide Sort, Joined, Hex, Chunks, ChunkRows, SectionResult;
    var n := Chunks(|f|, c);
    ListedRows(h, f, c, rows, listing);
    JoinedRows(h, f, c, n);
    ManyChunks(f, c);
    if n == 1 {
      OneChunkRow(h, f, c);
    }
  }

  lemma ManyChunks(f: Bytes, c: nat)
    requires c > 0 && f != []
    ensures Chunks(|f|, c) >= 1
    ensures Chunks(|f|, c) == 1 <==> c >= |f|
  {
    Starts(|f|, c, 0);
    Starts(|f|, c, 1);
  }

  lemma OneChunkRow(h: Hash, f: Bytes, c: nat)
    requires c > 0 && Chunks(|f|, c) == 1
    ensures ChunkRow(h, f, c, 0).value == Hex(h(f))
  {
    Partition(|f|, c, 0);
    assert Chunk(f, c, 0) == f;
  }

  lemma AcceptedRow(h: Hash, f: Bytes, c: nat, u: Upload, s: seq<Attempt>, i: nat)
    requires c > 0 && i < Chunks(|f|, c) && LastAt(s, i).Some?
    requires IsChunk(f, c, i, s[LastAt(s, i).value].body) && Accepted(h, s[LastAt(s, i).value])
    ensures i in Run(h, c, u, s).rows && Run(h, c, u, s).rows[i] == Hex(SectionResult(h, f, c, i).value)
  {
    RowIsLastAccepted(h, c, u, s, i);
    var k := LastAt(s, i).value;
    assert LastAccepted(h, s, i) == Some(k);
  }

  lemma {:induction false} RowsWithin(h: Hash, f: Bytes, c: nat, u: Upload, s: seq<Attempt>)
    requires c > 0 && Fits(f, c, s) && StartsWithin(f, c, u)
    ensures forall i :: i in Run(h, c, u, s).rows ==> i < Chunks(|f|, c)
  {
    forall i | i in Run(h, c, u, s).rows ensures i < Chunks(|f|, c) {
      RowIsLastAccepted(h, c, u, s, i);
    }
  }

  lemma AllRows(h: Hash, f: Bytes, c: nat, u: Upload, s: seq<Attempt>)
    requires c > 0 && Fits(f, c, s) && StartsWithin(f, c, u)
    requires LastIsChunk(f, c, s) && LastAccepting(h, f, c, s)
    ensures RowsOf(h, f, c, Run(h, c, u, s).rows)
  {
    RowsWithin(h, f, c, u, s);
    hide Run, Chunks, Fits, StartsWithin, SectionResult, Hex;
    forall i | 0 <= i < Chunks(|f|, c)
      ensures i in Run(h, c, u, s).rows && Run(h, c, u, s).rows[i] == Hex(SectionResult(h, f, c, i).value)
    {
      AcceptedRow(h, f, c, u, s, i);
    }
  }

  /** The law of the upload.  Whatever the number and order of the attempts, and whatever was
      left from before: if every body fits its chunk and the last attempt at every index is an
      accepted upload of that chunk, the temporary file is the client's file, the rows are its
      digests, and the server's composite digest is that of the chunk hasher. */
  lemma Reassembled(h: Hash, f: Bytes, c: nat, u: Upload, s: seq<Attempt>, listing: seq<Entry<string>>)
    requires c > 0 && f != [] && Fits(f, c, s) && StartsWithin(f, c, u)
    requires LastIsChunk(f, c, s) && LastAccepting(h, f, c, s)
    requires Lists(listing, Run(h, c, u, s).rows)
    ensures Run(h, c, u, s).file == f
    ensures RowsOf(h, f, c, Run(h, c, u, s).rows)
    ensures ServerTag(h, listing) == Composite(ETag(h, f, c))
  {
    ChunksAreFull(f, c, s);
    FullBodiesIff(h, f, c, u, s);
    AllRows(h, f, c, u, s);
    ServerTagIsETag(h, f, c, Run(h, c, u, s).rows, listing);
  }

  /** The body is empty, or is what f has at that place. */
  predicate Repeats(f: Bytes, off: nat, body: Bytes) {
    body == [] || (off + |body| <= |f| && f[off..off + |body|] == body)
  }

  lemma WriteKeepsIff(f: Bytes, off: nat, body: Bytes)
    ensures WriteAt(f, off, body) == f <==> Repeats(f, off, body)
  {
    var g := WriteAt(f, off, body);
    if body != [] {
      assert g[off..off + |body|] == body;
      if off + |body| <= |f| {
        assert f == f[..off] + f[off..off + |body|] + f[off + |body|..];
      }
    }
  }

  /** The last attempt counts, accepted or not.  After a complete upload a rejected body, of
      any length and at any index, leaves the rows and so the digest; it leaves the bytes
      exactly when it repeats what stands at its place. */
  lemma RejectedOverwrites(h: Hash, f: Bytes, c: nat, u: Upload, s: seq<Attempt>, a: Attempt, listing: seq<Entry<string>>)
    requires c > 0 && f != [] && Fits(f, c, s) && StartsWithin(f, c, u)
    requires LastIsChunk(f, c, s) && LastAccepting(h, f, c, s) && !Accepted(h, a)
    requires Lists(listing, Run(h, c, u, s + [a]).rows)
    ensures ServerTag(h, listing) == Composite(ETag(h, f, c))
    ensures Run(h, c, u, s + [a]).file == f <==> Repeats(f, Offset(c, a.idx), a.body)
  {
    RejectedStep(h, c, u, s, a);
    hide *;
    Reassembled(h, f, c, u, s, listing);
    RejectedBytes(h, f, c, u, s, a);
  }

  lemma RejectedBytes(h: Hash, f: Bytes, c: nat, u: Upload, s: seq<Attempt>, a: Attempt)
    requires !Accepted(h, a) && Run(h, c, u, s).file == f
    ensures Run(h, c, u, s + [a]).file == f <==> Repeats(f, Offset(c, a.idx), a.body)
  {
    RejectedStep(h, c, u, s, a);
    hide *;
    WriteKeepsIff(f, Offset(c, a.idx), a.body);
  }

  lemma RejectedStep(h: Hash, c: nat, u: Upload, s: seq<Attempt>, a: Attempt)
    requires !Accepted(h, a)
    ensures Run(h, c, u, s + [a]).rows == Run(h, c, u, s).rows
    ensures Run(h, c, u, s + [a]).file == WriteAt(Run(h, c, u, s).file, Offset(c, a.idx), a.body)
  {
    var t := s + [a];
    assert t[..|t| - 1] == s;
    assert Run(h, c, u, t) == Uploaded(h, c, Run(h, c, u, s), a);
  }

  /** A retry cut short can be rejected and do no harm; one that differs does. */
  lemma CutRetry(h: Hash) returns (f: Bytes, whole: Attempt, cut: Attempt, wrong: Attempt)
    ensures f == [1, 2] && Accepted(h, whole) && !Accepted(h, cut) && !Accepted(h, wrong)
    ensures |cut.body| == |wrong.body| == 1
    ensures Run(h, 2, Upload([], map[]), [whole]).file == f
    ensures Run(h, 2, Upload([], map[]), [whole, cut]).file == f
    ensures Run(h, 2, Upload([], map[]), [whole, wrong]).file == [9, 2]
  {
    f := [1, 2];
    whole, cut, wrong := Attempt(0, f, Hex(h(f))), Attempt(0, [1], ""), Attempt(0, [9], "");
    var u := Upload([], map[]);
    assert [whole, cut][..1] == [whole] && [whole, wrong][..1] == [whole] && [whole][..0] == [];
    assert WriteAt([], 0, f) == f && WriteAt(f, 0, [1]) == f && WriteAt(f, 0, [9]) == [9, 2];
    assert Run(h, 2, u, []) == u;
    assert Run(h, 2, u, [whole]) == Uploaded(h, 2, u, whole);
    assert Run(h, 2, u, [whole, cut]) == Uploaded(h, 2, Run(h, 2, u, [whole]), cut);
    assert Run(h, 2, u, [whole, wrong]) == Uploaded(h, 2, Run(h, 2, u, [whole]), wrong);
  }
}

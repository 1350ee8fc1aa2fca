/** The composite digest of pkg/cipher/md5.go: the whole file's digest when it fits in one
    chunk, else the digest of the chunks' digests with the number of chunks.  The sequential
    and the concurrent computation both yield it. */
module ChunkHash {
  import opened Basics
  import opened Text
  import opened Sorting

  const MAX_INT64: int := 0x7fff_ffff_ffff_ffff

  /** What a signed 64-bit computation leaves of x. */
  function Wrap(x: int): int {
    var m := x % TWO_64;
    if m > MAX_INT64 then m - TWO_64 else m
  }

  /** Signed division rounds toward zero. */
  function Quotient(x: int, c: nat): int
    requires c > 0
  {
    if x >= 0 then x / c else -((-x) / c)
  }

  // ---- what the digest is -------------------------------------------------------------

  /** The number of chunks of size c that cover n bytes. */
  function Chunks(n: nat, c: nat): nat
    requires c > 0
  {
    (n + c - 1) / c
  }

  /** Where chunk i of n bytes ends. */
  function End(n: nat, c: nat, i: nat): nat {
    if (i + 1) * c < n then (i + 1) * c else n
  }

  /** Where the reader stands after i chunks. */
  function Start(n: nat, c: nat, i: nat): (r: nat)
    requires c > 0
    ensures r <= n
  {
    if i < Chunks(n, c) then
      Starts(n, c, i);
      i * c
    else n
  }

  function Chunk(f: Bytes, c: nat, i: nat): Bytes
    requires i * c <= |f|
  {
    f[i * c..End(|f|, c, i)]
  }

  /** The digests of the first k chunks, one after the other. */
  function Digests(h: Hash, f: Bytes, c: nat, k: nat): Bytes
    requires c > 0 && k <= Chunks(|f|, c)
  {
    if k == 0 then []
    else
      Starts(|f|, c, k - 1);
      Digests(h, f, c, k - 1) + h(Chunk(f, c, k - 1))
  }

  function ETag(h: Hash, f: Bytes, c: nat): string
    requires c > 0
  {
    if c >= |f| then Hex(h(f)) else Tag(h(Digests(h, f, c, Chunks(|f|, c))), Chunks(|f|, c))
  }

  // ---- the same, without arithmetic -------------------------------------------------------

  /** The pieces one after the other, and their digests. */
  function Whole(pieces: seq<Bytes>): Bytes {
    if pieces == [] then [] else Whole(pieces[..|pieces| - 1]) + pieces[|pieces| - 1]
  }

  function PieceDigests(h: Hash, pieces: seq<Bytes>): Bytes {
    if pieces == [] then [] else PieceDigests(h, pieces[..|pieces| - 1]) + h(pieces[|pieces| - 1])
  }

  /** All pieces have c bytes, but for the last, which may have fewer, though not none. */
  predicate CutInto(c: nat, pieces: seq<Bytes>) {
    && pieces != [] && 0 < |pieces[|pieces| - 1]| <= c
    && forall i :: 0 <= i < |pieces| - 1 ==> |pieces[i]| == c
  }

  lemma {:induction false} WholeLength(c: nat, pieces: seq<Bytes>)
    requires forall i :: 0 <= i < |pieces| ==> |pieces[i]| == c
    ensures |Whole(pieces)| == |pieces| * c
  {
    if pieces != [] {
      var n := |pieces| - 1;
      WholeLength(c, pieces[..n]);
      assert (n + 1) * c == n * c + c;
    }
  }

  lemma WholeEnds(c: nat, pieces: seq<Bytes>)
    requires CutInto(c, pieces)
    ensures |Whole(pieces)| == (|pieces| - 1) * c + |pieces[|pieces| - 1]|
    ensures (|pieces| - 1) * c < |Whole(pieces)| <= |pieces| * c
  {
    var n := |pieces| - 1;
    WholeLength(c, pieces[..n]);
    assert (n + 1) * c == n * c + c;
  }

  lemma {:induction false} PieceAt(c: nat, pieces: seq<Bytes>, i: nat)
    requires i < |pieces| && forall k :: 0 <= k < |pieces| - 1 ==> |pieces[k]| == c
    ensures i * c + |pieces[i]| <= |Whole(pieces)| && Whole(pieces)[i * c..i * c + |pieces[i]|] == pieces[i]
  {
    var n := |pieces| - 1;
    WholeLength(c, pieces[..n]);
    if i < n {
      PieceAt(c, pieces[..n], i);
    }
  }

  lemma PiecesAreChunks(c: nat, pieces: seq<Bytes>, i: nat)
    requires CutInto(c, pieces)
    ensures Chunks(|Whole(pieces)|, c) == |pieces|
    ensures i < |pieces| ==> i * c <= |Whole(pieces)| && Chunk(Whole(pieces), c, i) == pieces[i]
  {
    var f, n := Whole(pieces), |pieces| - 1;
    hide Whole;
    WholeEnds(c, pieces);
    assert (n + 1) * c == n * c + c;
    CountChunks(|f|, c, n);
    if i < |pieces| {
      PieceAt(c, pieces, i);
      assert (i + 1) * c == i * c + c;
      if i < n {
        Multiply(i + 1, n, c);
      }
    }
  }

  lemma CountChunks(n: nat, c: nat, k: nat)
    requires c > 0 && k * c < n <= k * c + c
    ensures Chunks(n, c) == k + 1
  {
    Starts(n, c, k);
    Starts(n, c, k + 1);
  }

  lemma {:induction false} PieceDigestsAre(h: Hash, c: nat, pieces: seq<Bytes>, k: nat)
    requires CutInto(c, pieces) && k <= |pieces| == Chunks(|Whole(pieces)|, c)
    ensures Digests(h, Whole(pieces), c, k) == PieceDigests(h, pieces[..k])
  {
    hide Whole, Chunks, Chunk;
    if k > 0 {
      PieceDigestsAre(h, c, pieces, k - 1);
      PiecesAreChunks(c, pieces, k - 1);
      assert pieces[..k][..k - 1] == pieces[..k - 1];
    }
  }

  /** However a file of more than c bytes is cut into pieces of c bytes and a last one, its
      digest is that of the pieces' digests, with the number of pieces; a file of at most c
      bytes has the digest of its bytes. */
  lemma TagOfPieces(h: Hash, c: nat, pieces: seq<Bytes>)
    requires CutInto(c, pieces)
    ensures ETag(h, Whole(pieces), c) ==
      if |pieces| == 1 then Hex(h(pieces[0])) else Hex(h(PieceDigests(h, pieces))) + "-" + Dec(|pieces|)
  {
    hide Chunks, Digests, Hex, Dec, PieceDigests, Chunk;
    PiecesAreChunks(c, pieces, 0);
    PieceDigestsAre(h, c, pieces, |pieces|);
    assert pieces[..|pieces|] == pieces;
    var f, n := Whole(pieces), |pieces| - 1;
    WholeEnds(c, pieces);
    if n == 0 {
      assert pieces[..0] == [] && [] + pieces[0] == pieces[0];
    } else {
      Multiply(1, n, c);
    }
  }

  /** Two byte strings that show the hash is not injective. */
  ghost predicate Collide(h: Hash, a: Bytes, b: Bytes) {
    a != b && h(a) == h(b)
  }

  lemma {:induction false} SameDigests(h: Hash, f: Bytes, g: Bytes, c: nat, k: nat)
    requires c > 0 && k <= Chunks(|f|, c) && k <= Chunks(|g|, c)
    ensures |Digests(h, f, c, k)| == |Digests(h, g, c, k)|
    ensures Digests(h, f, c, k) == Digests(h, g, c, k) ==>
      forall i :: 0 <= i < k ==> i * c <= |f| && i * c <= |g| && h(Chunk(f, c, i)) == h(Chunk(g, c, i))
  {
    hide Chunks, Chunk;
    if k > 0 {
      SameDigests(h, f, g, c, k - 1);
      Starts(|f|, c, k - 1);
      Starts(|g|, c, k - 1);
      var a, b, x, y := Digests(h, f, c, k - 1), Digests(h, g, c, k - 1), h(Chunk(f, c, k - 1)), h(Chunk(g, c, k - 1));
      if a + x == b + y {
        assert a == (a + x)[..|a|] == (b + y)[..|b|] == b;
        assert x == (a + x)[|a|..] == (b + y)[|b|..] == y;
      }
    }
  }

  lemma {:induction false} UpToChunk(f: Bytes, g: Bytes, c: nat, k: nat)
    requires c > 0 && k <= Chunks(|f|, c) == Chunks(|g|, c)
    requires forall i :: 0 <= i < k ==> i * c <= |f| && i * c <= |g| && Chunk(f, c, i) == Chunk(g, c, i)
    ensures Start(|f|, c, k) == Start(|g|, c, k) && f[..Start(|f|, c, k)] == g[..Start(|g|, c, k)]
  {
    hide Chunks;
    if k == 0 {
      Starts(|f|, c, 0);
      Starts(|g|, c, 0);
    } else {
      UpToChunk(f, g, c, k - 1);
      ToEnd(f, c, k - 1);
      ToEnd(g, c, k - 1);
    }
  }

  lemma ToEnd(f: Bytes, c: nat, i: nat)
    requires c > 0 && i < Chunks(|f|, c)
    ensures i * c <= |f| && Start(|f|, c, i) == i * c
    ensures Start(|f|, c, i + 1) == i * c + |Chunk(f, c, i)|
    ensures f[..Start(|f|, c, i + 1)] == f[..i * c] + Chunk(f, c, i)
  {
    hide Chunks;
    Partition(|f|, c, i);
    Starts(|f|, c, i);
  }

  /** The hash collides on two chunks of the same number. */
  ghost predicate ChunksCollide(h: Hash, f: Bytes, g: Bytes, c: nat) {
    exists i: nat :: ChunkCollides(h, f, g, c, i)
  }

  ghost predicate ChunkCollides(h: Hash, f: Bytes, g: Bytes, c: nat, i: nat) {
    i * c <= |f| && i * c <= |g| && Collide(h, Chunk(f, c, i), Chunk(g, c, i))
  }

  /** Two files with the same digest are the same file, unless the hash collides on the files,
      on their joined digests or on two chunks of the same number. */
  lemma SameTagSameFile(h: Hash, f: Bytes, g: Bytes, c: nat)
    requires c > 0 && ETag(h, f, c) == ETag(h, g, c)
    ensures
      || f == g || Collide(h, f, g) || ChunksCollide(h, f, g, c)
      || Collide(h, Digests(h, f, c, Chunks(|f|, c)), Digests(h, g, c, Chunks(|g|, c)))
  {
    hide Chunks, Hex, Tag, Chunk, Digests, ChunksCollide;
    if c >= |f| || c >= |g| {
      ShortTags(h, f, g, c);
    } else {
      var m, n := Chunks(|f|, c), Chunks(|g|, c);
      TagInjective(h(Digests(h, f, c, m)), m, h(Digests(h, g, c, n)), n);
      if Digests(h, f, c, m) == Digests(h, g, c, n) {
        SameDigestsSameFile(h, f, g, c);
      }
    }
  }

  lemma SameDigestsSameFile(h: Hash, f: Bytes, g: Bytes, c: nat)
    requires c > 0 && Chunks(|f|, c) == Chunks(|g|, c)
    requires Digests(h, f, c, Chunks(|f|, c)) == Digests(h, g, c, Chunks(|g|, c))
    ensures f == g || ChunksCollide(h, f, g, c)
  {
    hide Chunks, Chunk, Digests;
    var m := Chunks(|f|, c);
    SameDigests(h, f, g, c, m);
    if !ChunksCollide(h, f, g, c) {
      forall i | 0 <= i < m ensures i * c <= |f| && i * c <= |g| && Chunk(f, c, i) == Chunk(g, c, i) {
        assert !ChunkCollides(h, f, g, c, i);
      }
      UpToChunk(f, g, c, m);
      assert f[..Start(|f|, c, m)] == f && g[..Start(|g|, c, m)] == g;
    }
  }

  lemma ShortTags(h: Hash, f: Bytes, g: Bytes, c: nat)
    requires c > 0 && ETag(h, f, c) == ETag(h, g, c) && (c >= |f| || c >= |g|)
    ensures h(f) == h(g)
  {
    hide Chunks, Digests, Dec;
    if c >= |f| && c >= |g| {
      HexInjective(h(f), h(g));
    }
  }

  // ---- arithmetic of chunks -------------------------------------------------------------

  /** Chunk i starts inside the file exactly when i is below the number of chunks. */
  lemma Starts(n: nat, c: nat, i: nat)
    requires c > 0
    ensures i * c < n <==> i < Chunks(n, c)
    ensures (i + 1) * c == i * c + c
  {
    var k := Chunks(n, c);
    Divides(n + c - 1, c);
    assert (i + 1) * c == i * c + c;
    if i < k {
      Multiply(i + 1, k, c);
    } else {
      Multiply(k, i, c);
    }
  }

  /** The size rounded up to whole chunks is a 64-bit number. */
  predicate RoundsUp(n: nat, c: nat)
    requires c > 0
  {
    Chunks(n, c) * c <= MAX_INT64
  }

  /** How much the loops read, or hand out, at pass i: 64-bit arithmetic throughout. */
  function SectionSize(n: nat, c: nat, i: nat): int {
    if Wrap((i + 1) * c) < n then c else n - Wrap(i * c)
  }

  /** The loops' test passes for every chunk.  After the last one it fails exactly when the
      rounded size fits; otherwise the product has turned negative and the loop goes on. */
  lemma LoopTest(n: nat, c: nat, i: nat)
    requires 0 < c < n <= MAX_INT64 && i <= Chunks(n, c)
    ensures i < Chunks(n, c) ==> i * c < n && Wrap(i * c) == i * c
    ensures i == Chunks(n, c) ==> i * c >= n && (Wrap(i * c) < n <==> !RoundsUp(n, c))
  {
    Starts(n, c, i);
    if i == Chunks(n, c) {
      Starts(n, c, i - 1);
    }
  }

  lemma SectionCases(n: nat, c: nat, off: nat)
    requires 0 < c < n <= MAX_INT64 && off < n
    ensures var size := if Wrap(off + c) < n then c else n - Wrap(off);
            && 0 <= size <= c
            && (if off + size < n then off + size else n) == (if off + c < n then off + c else n)
  {
  }

  /** In both cases what is read at pass i, cut off at the end of the file, is chunk i. */
  lemma SectionIsChunk(n: nat, c: nat, i: nat)
    requires 0 < c < n <= MAX_INT64 && i < Chunks(n, c)
    ensures 0 <= SectionSize(n, c, i) <= c && i * c < n
    ensures End(n, c, i) == if i * c + SectionSize(n, c, i) < n then i * c + SectionSize(n, c, i) else n
  {
    hide Wrap, Chunks;
    Starts(n, c, i);
    SectionCases(n, c, i * c);
  }

  /** Sizes for which the loop does not stop. */
  lemma Overruns()
    ensures !RoundsUp(MAX_INT64, 0x4000_0000_0000_0000)
    ensures Chunks(MAX_INT64, 0x4000_0000_0000_0000) == 2
    ensures Wrap(2 * 0x4000_0000_0000_0000) < 0
  {
  }

  lemma Divides(a: nat, c: nat)
    requires c > 0
    ensures a / c * c <= a < a / c * c + c
  {
  }

  lemma Multiply(a: nat, b: nat, c: nat)
    requires a <= b
    ensures a * c <= b * c
  {
  }

  /** The chunks partition the file: they lie end to end from its first byte to its last, and
      none is empty or longer than c. */
  lemma Partition(n: nat, c: nat, i: nat)
    requires c > 0 && i < Chunks(n, c)
    ensures i * c < End(n, c, i) <= n && End(n, c, i) - i * c <= c
    ensures i + 1 < Chunks(n, c) ==> End(n, c, i) == (i + 1) * c
    ensures i + 1 == Chunks(n, c) ==> End(n, c, i) == n
    ensures i + 1 < Chunks(n, c) ==> (i + 1) * c <= n
  {
    Starts(n, c, i);
    Starts(n, c, i + 1);
  }

  // ---- the sequential computation ---------------------------------------------------------

  /** io.LimitReader(reader, n) read to its end: the next n bytes, or what is left. */
  function Limited(rest: Bytes, n: nat): Bytes {
    if n < |rest| then rest[..n] else rest
  }

  /** MD5ByChunk on a reader at offset 0 of exactly totalSize bytes.  None: the loop has not
      stopped after the last chunk. */
  method MD5ByChunk(h: Hash, content: Bytes, chunkSize: nat) returns (r: Option<string>)
    requires 0 < chunkSize <= MAX_INT64 && |content| <= MAX_INT64
    ensures r == if chunkSize >= |content| || RoundsUp(|content|, chunkSize) then Some(ETag(h, content, chunkSize)) else None
  {
    hide Chunks, Start, Wrap, RoundsUp, SectionSize;
    var totalSize := |content|;
    if chunkSize >= totalSize {
      return Some(Hex(h(content)));
    }
    var rest, md5s := content, [];
    var i := 0;
    AtStart(totalSize, chunkSize);
    LoopTest(totalSize, chunkSize, i);
    while Wrap(i * chunkSize) < totalSize
      invariant i <= Chunks(totalSize, chunkSize)
      invariant i < Chunks(totalSize, chunkSize) ==> Wrap(i * chunkSize) < totalSize
      invariant i == Chunks(totalSize, chunkSize) ==> (Wrap(i * chunkSize) < totalSize <==> !RoundsUp(totalSize, chunkSize))
      invariant rest == content[Start(totalSize, chunkSize, i)..]
      invariant md5s == Digests(h, content, chunkSize, i)
      decreases Chunks(totalSize, chunkSize) - i
    {
      if i == Chunks(totalSize, chunkSize) {
        return None;
      }
      var part := ReadPart(content, chunkSize, i, rest);
      LoopTest(totalSize, chunkSize, i + 1);
      md5s := md5s + h(part);
      rest := rest[|part|..];
      i := i + 1;
    }
    r := Some(Tag(h(md5s), i));
  }

  lemma AtStart(n: nat, c: nat)
    requires c > 0
    ensures Start(n, c, 0) == 0
  {
    Starts(n, c, 0);
  }

  /** One pass: the next chunk, through a LimitReader of the size the loop computes. */
  method ReadPart(content: Bytes, chunkSize: nat, i: nat, rest: Bytes) returns (part: Bytes)
    requires 0 < chunkSize < |content| <= MAX_INT64 && i < Chunks(|content|, chunkSize)
    requires rest == content[Start(|content|, chunkSize, i)..]
    ensures i * chunkSize <= |content| && part == Chunk(content, chunkSize, i) && |part| <= |rest|
    ensures rest[|part|..] == content[Start(|content|, chunkSize, i + 1)..]
  {
    hide SectionSize, Wrap;
    Partition(|content|, chunkSize, i);
    SectionIsChunk(|content|, chunkSize, i);
    part := Limited(rest, SectionSize(|content|, chunkSize, i));
  }

  // ---- the concurrent computation -----------------------------------------------------------

  const ZERO: Digest := seq(16, _ => 0)

  /** The result of the goroutine for section i: the digest of that stretch of the file. */
  function SectionResult(h: Hash, content: Bytes, c: nat, i: nat): Entry<Digest>
    requires c > 0
  {
    if i < Chunks(|content|, c) then
      Starts(|content|, c, i);
      Entry(i, h(Chunk(content, c, i)))
    else
      Entry(i, ZERO)
  }

  /** The section numbers in file order. */
  function Numbers(n: nat): seq<nat> {
    seq(n, i => i)
  }

  function InOrder(h: Hash, content: Bytes, c: nat): seq<Entry<Digest>>
    requires c > 0
  {
    seq(Chunks(|content|, c), i requires i >= 0 => SectionResult(h, content, c, i))
  }

  lemma InOrderAt(h: Hash, content: Bytes, c: nat)
    requires c > 0
    ensures |InOrder(h, content, c)| == Chunks(|content|, c)
    ensures forall i :: 0 <= i < Chunks(|content|, c) ==> InOrder(h, content, c)[i] == SectionResult(h, content, c, i)
    ensures Ordered(InOrder(h, content, c)) && Distinct(InOrder(h, content, c))
  {
  }

  /** h.Write of each digest in turn. */
  function Written(parts: seq<Entry<Digest>>): Bytes {
    if parts == [] then [] else Written(parts[..|parts| - 1]) + parts[|parts| - 1].value
  }

  lemma {:induction false} WrittenInOrder(h: Hash, content: Bytes, c: nat, k: nat)
    requires c > 0 && k <= Chunks(|content|, c)
    ensures k <= |InOrder(h, content, c)|
    ensures Written(InOrder(h, content, c)[..k]) == Digests(h, content, c, k)
  {
    InOrderAt(h, content, c);
    if k > 0 {
      WrittenInOrder(h, content, c, k - 1);
      assert InOrder(h, content, c)[..k][..k - 1] == InOrder(h, content, c)[..k - 1];
    }
  }

  /** The section of chunk i: where it starts, and a size that, cut off at the end of the file,
      is the chunk's. */
  predicate IsSection(n: nat, c: nat, i: nat, section: (nat, nat)) {
    section.0 == i * c && End(n, c, i) == if section.0 + section.1 < n then section.0 + section.1 else n
  }

  /** The loop that spawns the goroutines: the sections it hands out are the chunks.  It has
      not stopped after the last one if the rounded size does not fit. */
  method SpawnSections(totalSize: nat, chunkSize: nat) returns (sections: seq<(nat, nat)>, stopped: bool)
    requires 0 < chunkSize < totalSize <= MAX_INT64
    ensures |sections| == Chunks(totalSize, chunkSize)
    ensures forall j :: 0 <= j < |sections| ==> IsSection(totalSize, chunkSize, j, sections[j])
    ensures stopped <==> RoundsUp(totalSize, chunkSize)
  {
    hide Chunks, Wrap, RoundsUp, SectionSize, IsSection;
    sections := [];
    var i := 0;
    LoopTest(totalSize, chunkSize, i);
    while Wrap(i * chunkSize) < totalSize
      invariant |sections| == i <= Chunks(totalSize, chunkSize)
      invariant i < Chunks(totalSize, chunkSize) ==> Wrap(i * chunkSize) < totalSize
      invariant i == Chunks(totalSize, chunkSize) ==> (Wrap(i * chunkSize) < totalSize <==> !RoundsUp(totalSize, chunkSize))
      invariant forall j :: 0 <= j < i ==> IsSection(totalSize, chunkSize, j, sections[j])
      decreases Chunks(totalSize, chunkSize) - i
    {
      if i == Chunks(totalSize, chunkSize) {
        return sections, false;
      }
      var section := NextSection(totalSize, chunkSize, i);
      LoopTest(totalSize, chunkSize, i + 1);
      sections := sections + [section];
      i := i + 1;
    }
    stopped := true;
  }

  method NextSection(totalSize: nat, chunkSize: nat, i: nat) returns (section: (nat, nat))
    requires 0 < chunkSize < totalSize <= MAX_INT64 && i < Chunks(totalSize, chunkSize)
    ensures IsSection(totalSize, chunkSize, i, section)
  {
    hide Chunks, Wrap, SectionSize, End;
    SectionIsChunk(totalSize, chunkSize, i);
    LoopTest(totalSize, chunkSize, i);
    section := (Wrap(i * chunkSize), SectionSize(totalSize, chunkSize, i));
  }

  /** One goroutine: io.NewSectionReader read to its end and hashed. */
  method HashSection(h: Hash, content: Bytes, chunkSize: nat, i: nat, section: (nat, nat)) returns (r: Entry<Digest>)
    requires chunkSize > 0 && i < Chunks(|content|, chunkSize) && IsSection(|content|, chunkSize, i, section)
    ensures r == SectionResult(h, content, chunkSize, i)
  {
    Partition(|content|, chunkSize, i);
    var part := Limited(content[section.0..], section.1);
    assert part == Chunk(content, chunkSize, i);
    r := Entry(i, h(part));
  }

  /** The sum the number of chunks is computed from is a 64-bit number. */
  predicate SumFits(n: nat, c: nat) {
    n + c - 1 <= MAX_INT64
  }

  /** Then the number is right, and the rounded size fits too; else it is not positive. */
  lemma CountIff(n: nat, c: nat)
    requires 0 < c < n <= MAX_INT64
    ensures SumFits(n, c) ==> Quotient(Wrap(n + c - 1), c) == Chunks(n, c) > 0 && RoundsUp(n, c)
    ensures !SumFits(n, c) ==> Quotient(Wrap(n + c - 1), c) <= 0
  {
    if SumFits(n, c) {
      assert Wrap(n + c - 1) == n + c - 1;
      Divides(n + c - 1, c);
      Starts(n, c, 0);
    } else {
      var w := n + c - 1 - TWO_64;
      assert n + c - 1 < TWO_64;
      assert Wrap(n + c - 1) == w < 0;
      assert (-w) / c >= 0;
    }
  }

  /** MD5ByChunkConcurrent.  Results reach the gathering goroutine in any order at all; it
      lists them as they come, sorts the list and hashes the digests.  None: the number of
      chunks has overflowed and is not positive, so the list cannot be made or cannot take the
      first result, and the program panics. */
  method MD5ByChunkConcurrent(h: Hash, content: Bytes, chunkSize: nat, arrivals: seq<nat>) returns (r: Option<string>)
    requires 0 < chunkSize <= MAX_INT64 && |content| <= MAX_INT64
    requires multiset(arrivals) == multiset(Numbers(Chunks(|content|, chunkSize)))
    ensures r == if chunkSize >= |content| || SumFits(|content|, chunkSize) then Some(ETag(h, content, chunkSize)) else None
  {
    hide Chunks, Wrap, Quotient, RoundsUp, Tag, Hex, SumFits, Numbers;
    var totalSize := |content|;
    if chunkSize >= totalSize {
      return Some(Hex(h(content)));
    }
    var totalChunks := Quotient(Wrap(totalSize + chunkSize - 1), chunkSize);
    CountIff(totalSize, chunkSize);
    if totalChunks <= 0 {
      return None;
    }
    var sections, stopped := SpawnSections(totalSize, chunkSize);
    var md5ChunkList := Gather(h, content, chunkSize, arrivals, sections);
    var written := WriteDigests(h, content, chunkSize, md5ChunkList[..]);
    r := Some(Tag(h(written), totalChunks));
  }

  /** Sort the list and write its digests. */
  method WriteDigests(h: Hash, content: Bytes, chunkSize: nat, list: seq<Entry<Digest>>) returns (written: Bytes)
    requires chunkSize > 0 && multiset(list) == multiset(InOrder(h, content, chunkSize))
    ensures written == Digests(h, content, chunkSize, Chunks(|content|, chunkSize))
  {
    hide Chunks, Sort, InOrder, SectionResult;
    InOrderAt(h, content, chunkSize);
    SortOfOrdered(InOrder(h, content, chunkSize), list);
    var sorted := Sort(list);
    written := [];
    for j := 0 to |sorted|
      invariant written == Written(sorted[..j])
    {
      assert sorted[..j + 1][..j] == sorted[..j];
      written := written + sorted[j].value;
    }
    WrittenInOrder(h, content, chunkSize, |sorted|);
  }

  /** The list of results, filled in as they arrive. */
  method Gather(h: Hash, content: Bytes, chunkSize: nat, arrivals: seq<nat>, sections: seq<(nat, nat)>)
    returns (md5ChunkList: array<Entry<Digest>>)
    requires chunkSize > 0 && |sections| == Chunks(|content|, chunkSize)
    requires forall j :: 0 <= j < |sections| ==> IsSection(|content|, chunkSize, j, sections[j])
    requires multiset(arrivals) == multiset(Numbers(|sections|))
    ensures multiset(md5ChunkList[..]) == multiset(InOrder(h, content, chunkSize))
  {
    hide Chunks, IsSection, SectionResult, InOrder;
    var n := |sections|;
    ghost var all := InOrder(h, content, chunkSize);
    InOrderAt(h, content, chunkSize);
    PermutedWithin(arrivals, Numbers(n), n);
    PickPermuted(all, arrivals, Numbers(n));
    assert Pick(all, Numbers(n)) == all;
    md5ChunkList := new Entry<Digest>[n](_ => Entry(0, ZERO));
    for j := 0 to n
      invariant forall k :: 0 <= k < j ==> md5ChunkList[k] == all[arrivals[k]]
    {
      md5ChunkList[j] := HashSection(h, content, chunkSize, arrivals[j], sections[arrivals[j]]);
    }
    assert md5ChunkList[..] == Pick(all, arrivals);
  }

  /** The two computations agree, whatever the order of arrival, unless the concurrent one
      panics. */
  method SameDigest(h: Hash, content: Bytes, chunkSize: nat, arrivals: seq<nat>)
    returns (sequential: Option<string>, concurrent: Option<string>)
    requires 0 < chunkSize <= MAX_INT64 && |content| <= MAX_INT64
    requires multiset(arrivals) == multiset(Numbers(Chunks(|content|, chunkSize)))
    ensures concurrent.Some? <==> chunkSize >= |content| || SumFits(|content|, chunkSize)
    ensures concurrent.Some? ==> sequential == concurrent
  {
    hide Chunks, RoundsUp, SumFits;
    sequential := MD5ByChunk(h, content, chunkSize);
    concurrent := MD5ByChunkConcurrent(h, content, chunkSize, arrivals);
    if chunkSize < |content| {
      CountIff(|content|, chunkSize);
    }
  }
}

/** Whole conversations with the upload server: what a client that follows the protocol gets. */
module UploadSession {
  import opened Basics
  import opened Text
  import opened Sorting
  import opened ChunkHash
  import opened Multipart
  import opened UploadServer

  ghost predicate Ready(server: Server, key: string, token: string, f: Bytes, c: nat)
    reads server
  {
    && Inv(server.Db())
    && key in server.uploads
    && server.uploads[key].token == token
    && server.uploads[key].chunkSize == c
    && c > 0 && f != [] && |f| < TWO_63
  }

  /** Requests for parts of one upload, in any order and with any repetitions.  Another upload is
      changed exactly if it is finished, its result is this temporary file, some request was made,
      and not this: the file was there, and the last body to cover each position, or else what
      stood there, has its byte. */
  method SendParts(server: Server, key: string, token: string, f: Bytes, c: nat, s: seq<Attempt>)
    requires Ready(server, key, token, f, c) && Fits(f, c, s)
    modifies server`parts, server`files
    ensures Ready(server, key, token, f, c) && Touches(old(server.Db()), server.Db(), key)
    ensures UploadOf(server.Db(), key) == Run(server.h, c, old(UploadOf(server.Db(), key)), s)
    ensures forall path :: path != TmpName(key) ==> Look(server.files, path) == Look(old(server.files), path)
    ensures s != [] ==> Look(server.files, TmpName(key)) == Some(UploadOf(server.Db(), key).file)
    ensures s == [] ==> server.Db() == old(server.Db())
    ensures forall k :: k in server.uploads && k != key ==>
      (Same(old(server.Db()), server.Db(), k) <==>
        !(k == TmpName(key) && server.uploads[k].state.Done? && s != []
          && !(k in old(server.files) && Leaves(old(UploadOf(server.Db(), key)), c, s, old(server.files)[k]))))
  {
    hide UploadOf, Same, TmpName, Uploaded, PartSent, Inv, Chunks, Accepted, Touches, Fits, Run, Look, Leaves, KeepsBytes;
    RunNothing(server.h, c, UploadOf(server.Db(), key), s);
    TouchesNothing(server.Db(), key);
    for i := 0 to |s|
      invariant Ready(server, key, token, f, c) && Touches(old(server.Db()), server.Db(), key)
      invariant UploadOf(server.Db(), key) == Run(server.h, c, old(UploadOf(server.Db(), key)), s[..i])
      invariant forall path :: path != TmpName(key) ==> Look(server.files, path) == Look(old(server.files), path)
      invariant i > 0 ==> Look(server.files, TmpName(key)) == Some(UploadOf(server.Db(), key).file)
      invariant i == 0 ==> server.Db() == old(server.Db())
    {
      ghost var before := server.Db();
      var a := s[i];
      InRange(f, c, s, i);
      SentIsUploaded(server.h, c, UploadOf(before, key), a);
      RunNext(server.h, c, old(UploadOf(server.Db(), key)), s, i);
      var fault := server.UploadPart(token, a.idx, a.claimed, a.body);
      TouchesTwice(old(server.Db()), before, server.Db(), key);
    }
    assert s[..|s|] == s;
    KeyIsNotTmp(server.Db(), key);
    OthersAfterSending(server.h, c, old(server.Db()), server.Db(), key, s);
  }

  lemma OthersAfterSending(h: Hash, c: nat, t: Tables, v: Tables, key: string, s: seq<Attempt>)
    requires Touches(t, v, key) && key in t.uploads && t.uploads == v.uploads && TmpName(key) != key
    requires Look(t.files, key) == Look(v.files, key)
    requires if s == [] then v == t else Look(v.files, TmpName(key)) == Some(Run(h, c, UploadOf(t, key), s).file)
    ensures forall k :: k in v.uploads && k != key ==>
      (Same(t, v, k) <==>
        !(k == TmpName(key) && v.uploads[k].state.Done? && s != []
          && !(k in t.files && Leaves(UploadOf(t, key), c, s, t.files[k]))))
  {
    hide UploadOf, Same, TmpName, Touches, Run, Look, Leaves;
    if s != [] {
      SendKeepsIff(h, c, t, v, key, s);
    }
    forall k | k in v.uploads && k != key
      ensures Same(t, v, k) <==>
        !(k == TmpName(key) && v.uploads[k].state.Done? && s != []
          && !(k in t.files && Leaves(UploadOf(t, key), c, s, t.files[k])))
    {
      ChangedIff(t, v, key, k);
    }
  }

  lemma SendKeepsIff(h: Hash, c: nat, t: Tables, v: Tables, key: string, s: seq<Attempt>)
    requires key in t.uploads
    requires Look(v.files, TmpName(key)) == Some(Run(h, c, UploadOf(t, key), s).file)
    ensures
      var name := TmpName(key);
      Look(t.files, name) == Look(v.files, name) <==> name in t.files && Leaves(UploadOf(t, key), c, s, t.files[name])
  {
    hide TmpName, RowsAt, Run, Leaves;
    var name := TmpName(key);
    if name in t.files {
      FileIff(h, t.files[name], c, UploadOf(t, key), s);
    }
  }

  lemma RunNothing(h: Hash, c: nat, u: Upload, s: seq<Attempt>)
    ensures Run(h, c, u, s[..0]) == u
  {
  }

  lemma RunNext(h: Hash, c: nat, u: Upload, s: seq<Attempt>, i: nat)
    requires i < |s|
    ensures Run(h, c, u, s[..i + 1]) == Uploaded(h, c, Run(h, c, u, s[..i]), s[i])
  {
    assert s[..i + 1][..i] == s[..i];
  }

  lemma TouchesNothing(t: Tables, key: string)
    ensures Touches(t, t, key)
  {
    hide TmpName, Look, RowsAt;
  }

  lemma InRange(f: Bytes, c: nat, s: seq<Attempt>, i: nat)
    requires c > 0 && Fits(f, c, s) && i < |s| && |f| < TWO_63
    ensures c * s[i].idx < TWO_63
  {
    Starts(|f|, c, s[i].idx);
  }

  /** A client that sends every chunk, repeats whatever it likes as long as the last attempt at
      every index is an accepted upload of that chunk, and lists the parts in any order, gets
      the chunk hasher's digest, and the file is under its key, byte for byte.  The file must
      take two chunks or more: see OneRowIff.  Another upload is changed exactly if its result
      was this temporary file, or its temporary file is under the key and was not this file. */
  method UploadWhole(server: Server, key: string, token: string, f: Bytes, c: nat, s: seq<Attempt>, list: seq<Entry<string>>)
    returns (etag: string, fault: Option<Fault>)
    requires Ready(server, key, token, f, c) && Fits(f, c, s) && c < |f|
    requires StartsWithin(f, c, UploadOf(server.Db(), key))
    requires LastIsChunk(f, c, s) && LastAccepting(server.h, f, c, s)
    requires multiset(list) == multiset(ChunkRows(server.h, f, c, Chunks(|f|, c)))
    modifies server`uploads, server`parts, server`files
    ensures Inv(server.Db())
    ensures fault == None && etag == ETag(server.h, f, c)
    ensures Look(server.files, key) == Some(f) && Look(server.files, TmpName(key)) == None
    ensures RowsOf(server.h, f, c, RowsAt(server.parts, token))
    ensures server.uploads == old(server.uploads)[key := old(server.uploads[key]).(md5 := etag, state := Done)]
    ensures forall k :: k in old(server.uploads) && k != key ==>
      (Same(old(server.Db()), server.Db(), k) <==>
        && !(k == TmpName(key) && old(server.uploads)[k].state.Done? && k in old(server.files))
        && !(TmpName(k) == key && Look(old(server.files), key) != Some(f)))
  {
    hide Same, Inv, Lists, UploadOf, TmpName, ClientTag, ServerTag, ETag, Chunks, Fits, LastIsChunk, LastAccepting, StartsWithin, ChunkRows, RowsOf, Run, Touches;
    ghost var t := server.Db();
    KeyIsNotTmp(t, key);
    Arrives(server.h, f, c, UploadOf(t, key), s, list);
    AllRows(server.h, f, c, UploadOf(t, key), s);
    SendParts(server, key, token, f, c, s);
    ghost var sent := server.Db();
    RowsAreThose(sent, key);
    etag, fault := server.CompleteUpload(key, list);
    TouchesTwice(t, sent, server.Db(), key);
    forall k | k in t.uploads && k != key
      ensures Same(t, server.Db(), k) <==>
        && !(k == TmpName(key) && t.uploads[k].state.Done? && k in t.files)
        && !(TmpName(k) == key && Look(t.files, key) != Some(f))
    {
      ChangedIff(t, server.Db(), key, k);
    }
  }

  lemma RowsAreThose(t: Tables, key: string)
    requires key in t.uploads
    ensures UploadOf(t, key).rows == RowsAt(t.parts, t.uploads[key].token)
  {
  }

  /** What the model of the parts says of such a client. */
  lemma Arrives(h: Hash, f: Bytes, c: nat, u: Upload, s: seq<Attempt>, list: seq<Entry<string>>)
    requires 0 < c < |f| && Fits(f, c, s) && StartsWithin(f, c, u)
    requires LastIsChunk(f, c, s) && LastAccepting(h, f, c, s)
    requires multiset(list) == multiset(ChunkRows(h, f, c, Chunks(|f|, c)))
    ensures s != [] && Run(h, c, u, s).file == f
    ensures ClientTag(h, list) == Composite(ETag(h, f, c))
    ensures exists listing :: Lists(listing, Run(h, c, u, s).rows) && Completes(h, list, listing)
  {
    hide Lists, ClientTag, ServerTag, ETag, Chunks, Fits, LastIsChunk, LastAccepting, StartsWithin, ChunkRows, RowsOf, Run, Completes;
    SomeAttempt(f, c, s);
    ghost var rows := Run(h, c, u, s).rows;
    AllRows(h, f, c, u, s);
    RowsListed(h, f, c, rows);
    Reassembled(h, f, c, u, s, ChunkRows(h, f, c, Chunks(|f|, c)));
    ManyChunks(f, c);
    ListAccepted(h, f, c, rows, list);
  }

  lemma SomeAttempt(f: Bytes, c: nat, s: seq<Attempt>)
    requires c > 0 && f != [] && LastIsChunk(f, c, s)
    ensures s != []
  {
    ManyChunks(f, c);
    assert LastAt(s, 0).Some?;
  }

  lemma RowsListed(h: Hash, f: Bytes, c: nat, rows: map<nat, string>)
    requires c > 0 && RowsOf(h, f, c, rows)
    ensures Lists(ChunkRows(h, f, c, Chunks(|f|, c)), rows)
  {
    hide Chunks, SectionResult, Hex;
    var all := ChunkRows(h, f, c, Chunks(|f|, c));
    forall i | i in rows ensures Entry(i, rows[i]) in all {
      assert all[i] == Entry(i, rows[i]);
    }
  }

  lemma ListAccepted(h: Hash, f: Bytes, c: nat, rows: map<nat, string>, list: seq<Entry<string>>)
    requires c > 0 && f != [] && Chunks(|f|, c) >= 2 && RowsOf(h, f, c, rows)
    requires multiset(list) == multiset(ChunkRows(h, f, c, Chunks(|f|, c)))
    ensures ClientTag(h, list) == Composite(ETag(h, f, c))
    ensures Lists(ChunkRows(h, f, c, Chunks(|f|, c)), rows) && Completes(h, list, ChunkRows(h, f, c, Chunks(|f|, c)))
  {
    var all := ChunkRows(h, f, c, Chunks(|f|, c));
    RowsListed(h, f, c, rows);
    ServerTagIsETag(h, f, c, rows, all);
    AnyOrderCompletes(h, list, all);
  }

  /** The same sizes again after such an upload, whatever has become of the file under the key
      meanwhile: the upload goes on, with every chunk listed, exactly if the file is there with
      as many bytes; otherwise it begins again with nothing. */
  method AskAfterWhole(server: Server, key: string, token: string, f: Bytes, c: nat, s: seq<Attempt>, list: seq<Entry<string>>,
                       now: Option<Bytes>, chunkMB: nat, id: string)
    returns (code: nat, again: string, rows: seq<Entry<string>>)
    requires Ready(server, key, token, f, c) && Fits(f, c, s) && c < |f|
    requires StartsWithin(f, c, UploadOf(server.Db(), key))
    requires LastIsChunk(f, c, s) && LastAccepting(server.h, f, c, s)
    requires multiset(list) == multiset(ChunkRows(server.h, f, c, Chunks(|f|, c)))
    requires server.uploads[key].size == |f| && c == chunkMB * MB % TWO_64 && Absolute(key)
    modifies server`uploads, server`parts, server`files
    ensures Inv(server.Db())
    ensures code == 2002 <==> now.Some? && |now.value| == |f|
    ensures code == 2002 ==> again == token && multiset(rows) == multiset(list) && Look(server.files, key) == now
    ensures code != 2002 ==> code == 2003 && rows == [] && Look(server.files, key) == None
    ensures code != 2002 && (forall k :: k in old(server.uploads) && k != key ==> old(server.uploads)[k].token != id) ==>
      && again == id && key in server.uploads && UploadOf(server.Db(), key) == Upload([], map[])
  {
    hide Same, Inv, Lists, UploadOf, TmpName, Absolute, Touches, TokenUsed, ETag, Chunks, Fits, LastIsChunk, LastAccepting, StartsWithin, ChunkRows, RowsOf, Run;
    var etag, fault := UploadWhole(server, key, token, f, c, s, list);
    ghost var t := server.Db();
    server.files := if now.Some? then server.files[key := now.value] else server.files - {key};
    FilesKeepInv(t, server.files);
    RowsAreThose(server.Db(), key);
    code, again, rows, fault := server.InitMultipartUpload(key, |f|, chunkMB, id);
    if code == 2002 {
      RowsListed(server.h, f, c, RowsAt(server.parts, token));
      ListingsPermute(rows, ChunkRows(server.h, f, c, Chunks(|f|, c)), RowsAt(server.parts, token));
    }
  }

  /** The same sizes again in the middle of an upload: it goes on, with exactly the rows of the
      requests so far listed, if there were any or its temporary file was there before. */
  method AskAfterParts(server: Server, key: string, token: string, f: Bytes, c: nat, s: seq<Attempt>, size: nat, chunkMB: nat, id: string)
    returns (code: nat, again: string, rows: seq<Entry<string>>)
    requires Ready(server, key, token, f, c) && Fits(f, c, s)
    requires server.uploads[key].state.Running? && server.uploads[key].size == size
    requires c == chunkMB * MB % TWO_64 && Absolute(key)
    modifies server`uploads, server`parts, server`files
    ensures Inv(server.Db())
    ensures code == 2002 <==> s != [] || TmpName(key) in old(server.files)
    ensures code == 2002 ==>
      && again == token && Ready(server, key, token, f, c)
      && UploadOf(server.Db(), key) == Run(server.h, c, old(UploadOf(server.Db(), key)), s)
      && Lists(rows, Run(server.h, c, old(UploadOf(server.Db(), key)), s).rows)
    ensures code != 2002 ==> code == 2003 && rows == []
  {
    hide Same, Inv, Lists, UploadOf, TmpName, Absolute, Touches, TokenUsed, Fits, Run;
    SendParts(server, key, token, f, c, s);
    var fault;
    code, again, rows, fault := server.InitMultipartUpload(key, size, chunkMB, id);
  }

  /** Asking twice before the first part arrives restarts the upload: no file is there yet. */
  method AskTwice(server: Server, key: string, size: nat, chunkMB: nat, id: string, id': string) returns (first: nat, second: nat)
    requires Inv(server.Db()) && Absolute(key) && key !in server.uploads && !TokenUsed(server.Db(), id)
    requires TmpName(key) !in server.files
    modifies server`uploads, server`parts, server`files
    ensures first == 2001 && second == 2003
  {
    hide Same, Absolute, UploadOf, TmpName, Inv;
    var token, list, fault;
    first, token, list, fault := server.InitMultipartUpload(key, size, chunkMB, id);
    second, token, list, fault := server.InitMultipartUpload(key, size, chunkMB, id');
  }

  // ---- uploads that share a name --------------------------------------------------------------

  // A key can be the name of another upload's temporary file.  Each operation that can change
  // another upload does so below, for any absolute key and any file longer than a chunk.

  /** Every chunk once, in order. */
  function WholeFile(h: Hash, f: Bytes, c: nat): (s: seq<Attempt>)
    requires c > 0
    ensures |s| == Chunks(|f|, c)
    ensures forall i :: 0 <= i < |s| ==> s[i].idx == i && IsChunk(f, c, i, s[i].body) && Accepted(h, s[i])
  {
    seq(Chunks(|f|, c), i requires 0 <= i < Chunks(|f|, c) =>
      Starts(|f|, c, i);
      Attempt(i, Chunk(f, c, i), Hex(h(Chunk(f, c, i)))))
  }

  lemma WholeFileAt(h: Hash, f: Bytes, c: nat, i: nat)
    requires c > 0 && i < Chunks(|f|, c)
    ensures LastAt(WholeFile(h, f, c), i) == Some(i)
  {
    var s := WholeFile(h, f, c);
    assert s[i].idx == i;
  }

  lemma WholeFileGood(h: Hash, f: Bytes, c: nat)
    requires c > 0
    ensures var s := WholeFile(h, f, c); Fits(f, c, s) && LastIsChunk(f, c, s) && LastAccepting(h, f, c, s)
  {
    hide WholeFile, LastAt, Chunks;
    var s := WholeFile(h, f, c);
    forall i | 0 <= i < Chunks(|f|, c)
      ensures LastAt(s, i) == Some(i) && s[i].idx == i && Offset(c, i) + |s[i].body| <= End(|f|, c, i)
    {
      WholeFileAt(h, f, c, i);
      Partition(|f|, c, i);
    }
  }

  /** A new upload of f under key, finished. */
  method Finish(server: Server, key: string, f: Bytes, id: string)
    requires Inv(server.Db()) && Absolute(key) && key !in server.uploads && !TokenUsed(server.Db(), id)
    requires MB < |f| < TWO_63 && |FileAt(server.files, TmpName(key))| <= |f|
    modifies server`uploads, server`parts, server`files
    ensures Inv(server.Db()) && Look(server.files, key) == Some(f) && Look(server.files, TmpName(key)) == None
    ensures key in server.uploads && server.uploads.Keys == old(server.uploads.Keys) + {key}
    ensures server.uploads[key].token == id && server.uploads[key].state.Done?
    ensures forall k :: k in old(server.uploads) ==> server.uploads[k] == old(server.uploads)[k]
  {
    hide Same, Inv, TmpName, Absolute, Fits, LastIsChunk, LastAccepting, StartsWithin, ChunkRows, WholeFile, Chunks, UploadOf, TokenUsed;
    var code, token, list, fault := server.InitMultipartUpload(key, |f|, 1, id);
    EmptyWithin(f, MB, UploadOf(server.Db(), key));
    FileOf(server.Db(), key);
    WholeFileGood(server.h, f, MB);
    var etag, refused := UploadWhole(server, key, token, f, MB, WholeFile(server.h, f, MB), ChunkRows(server.h, f, MB, Chunks(|f|, MB)));
  }

  lemma EmptyWithin(f: Bytes, c: nat, u: Upload)
    requires c > 0
    ensures u.rows == map[] && |u.file| <= |f| ==> StartsWithin(f, c, u)
  {
  }

  lemma FileOf(t: Tables, key: string)
    requires key in t.uploads
    ensures UploadOf(t, key).file == FileAt(t.files, TmpName(key))
  {
  }

  ghost predicate FinishedWith(server: Server, key: string, f: Bytes)
    reads server
  {
    key in server.uploads && server.uploads[key].state.Done? && Look(server.files, key) == Some(f)
  }

  /** An upload under the name of the temporary file of key is finished; then key is begun. */
  method Crowd(h: Hash, key: string, f: Bytes) returns (server: Server)
    requires Absolute(key) && MB < |f| < TWO_63
    ensures fresh(server) && server.h == h && Inv(server.Db())
    ensures FinishedWith(server, TmpName(key), f)
    ensures key in server.uploads && server.uploads[key] == Row("2", TmpName(key), 5, MB, "", Running)
    ensures UploadOf(server.Db(), key) == Upload(f, map[]) && !TokenUsed(server.Db(), "3")
  {
    hide Inv, TmpName, Absolute, Same;
    TmpCanBeKey(key);
    server := new Server(h);
    Finish(server, TmpName(key), f, "1");
    var code, token, list, fault := server.InitMultipartUpload(key, 5, 1, "2");
  }

  /** A part sent for key overwrites the finished file. */
  method PartSpoilsResult(h: Hash, key: string, f: Bytes, x: byte) returns (server: Server)
    requires Absolute(key) && MB < |f| < TWO_63 && x != f[0]
    ensures TmpName(key) in server.uploads && server.uploads[TmpName(key)].state.Done?
    ensures Look(server.files, TmpName(key)) == Some([x] + f[1..]) != Some(f)
  {
    hide Inv, TmpName, Absolute, Same, Touches, Look, Accepted, UploadOf;
    server := Crowd(h, key, f);
    var fault := server.UploadPart("2", 0, "", [x]);
    FirstByte(f, x);
  }

  lemma FirstByte(f: Bytes, x: byte)
    requires f != [] && x != f[0]
    ensures WriteAt(f, 0, [x]) == [x] + f[1..] != f
  {
    assert ([x] + f[1..])[0] == x;
  }

  /** Destroying key's upload removes the finished file. */
  method DestroySpoilsResult(h: Hash, key: string, f: Bytes) returns (server: Server)
    requires Absolute(key) && MB < |f| < TWO_63
    ensures TmpName(key) in server.uploads && server.uploads[TmpName(key)].state.Done?
    ensures Look(server.files, TmpName(key)) == None
  {
    hide Inv, TmpName, Absolute, Same, Touches;
    TmpCanBeKey(key);
    server := Crowd(h, key, f);
    var fault := server.DestroyUploadByToken("2");
  }

  /** So does asking for key again with another size. */
  method RestartSpoilsResult(h: Hash, key: string, f: Bytes) returns (server: Server, code: nat)
    requires Absolute(key) && MB < |f| < TWO_63
    ensures code == 2003
    ensures Look(server.files, TmpName(key)) == None
  {
    hide Inv, TmpName, Absolute, Same, Touches;
    server := Crowd(h, key, f);
    var token, list, fault;
    code, token, list, fault := server.InitMultipartUpload(key, 6, 1, "3");
  }

  /** Completing key's upload takes the finished file away. */
  method CompleteSpoilsResult(h: Hash, key: string, f: Bytes) returns (server: Server)
    requires Absolute(key) && MB < |f| < TWO_63
    ensures TmpName(key) in server.uploads && server.uploads[TmpName(key)].state.Done?
    ensures Look(server.files, TmpName(key)) == None && Look(server.files, key) == Some(f)
  {
    hide Inv, TmpName, Absolute, Same, Fits, LastIsChunk, LastAccepting, StartsWithin, ChunkRows, WholeFile, Chunks, UploadOf, TokenUsed, Look;
    TmpCanBeKey(key);
    server := Crowd(h, key, f);
    EmptyWithin(f, MB, UploadOf(server.Db(), key));
    WholeFileGood(h, f, MB);
    var etag, fault := UploadWhole(server, key, "2", f, MB, WholeFile(h, f, MB), ChunkRows(h, f, MB, Chunks(|f|, MB)));
  }

  /** An upload with one part, of one byte. */
  method Begin(h: Hash, victim: string, x: byte) returns (server: Server)
    requires Absolute(victim)
    ensures fresh(server) && server.h == h && Inv(server.Db())
    ensures server.uploads.Keys == {victim} && server.uploads[victim].token == "1"
    ensures UploadOf(server.Db(), victim) == Upload([x], map[0 := Hex(h([x]))])
    ensures server.files.Keys == {TmpName(victim)}
  {
    hide Inv, TmpName, Absolute, Same, Touches;
    server := new Server(h);
    var code, token, list, fault := server.InitMultipartUpload(victim, 5, 1, "1");
    assert WriteAt([], 0, [x]) == [x];
    var refused := server.UploadPart("1", 0, Hex(h([x])), [x]);
    assert server.files.Keys == {TmpName(victim)} by {
      OneFile(server.files, TmpName(victim));
    }
  }

  lemma OneFile(files: map<string, Bytes>, path: string)
    requires Look(files, path).Some? && forall p :: p != path ==> Look(files, p) == None
    ensures files.Keys == {path}
  {
    assert forall p :: p in files ==> Look(files, p).Some?;
  }

  /** Restarting an upload under the name of the victim's temporary file removes the bytes of a
      part whose row stays. */
  method RestartSpoilsParts(h: Hash, victim: string, x: byte) returns (server: Server, code: nat)
    requires Absolute(victim)
    ensures code == 2003
    ensures victim in server.uploads && UploadOf(server.Db(), victim) == Upload([], map[0 := Hex(h([x]))])
  {
    hide Inv, TmpName, Absolute, Same;
    TmpCanBeKey(victim);
    server := Begin(h, victim, x);
    var token, list, fault;
    code, token, list, fault := server.InitMultipartUpload(TmpName(victim), 5, 1, "2");
    code, token, list, fault := server.InitMultipartUpload(TmpName(victim), 6, 1, "3");
  }

  /** Completing one puts other bytes in their place. */
  method CompleteSpoilsParts(h: Hash, victim: string, x: byte, f: Bytes) returns (server: Server)
    requires Absolute(victim) && MB < |f| < TWO_63
    ensures victim in server.uploads && UploadOf(server.Db(), victim).file == f
  {
    hide Inv, TmpName, Absolute, Same, Touches;
    TmpCanBeKey(victim);
    server := Begin(h, victim, x);
    Finish(server, TmpName(victim), f, "2");
  }
}

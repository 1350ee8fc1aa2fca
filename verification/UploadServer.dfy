/** The upload server: the upload and part tables, the files, and the operations that change
    them.  What one upload's file and rows become is told by Multipart; here each operation is
    shown to do that to its own upload and nothing to any other. */
module UploadServer {
  import opened Basics
  import opened Text
  import opened Sorting
  import opened Multipart

  const MB := 1048576

  datatype Phase = Running | Done

  /** A row of the upload table; the table is keyed by the unique column key. */
  datatype Row = Row(token: string, tmpName: string, size: nat, chunkSize: nat, md5: string, state: Phase)

  datatype Fault = NotFound | Corrupted | DuplicateToken | SeekFailed | PartCorrupted | InvalidMD5 | CompleteFailed

  // ---- names of temporary files ----------------------------------------------------------

  predicate Absolute(path: string) {
    path != "" && path[0] == '/'
  }

  /** The file the name "<parent>/.<file>.upload" denotes; an absolute key's parent ends in the
      separator already. */
  function TmpName(key: string): string {
    key[..LastElement(key)] + "." + key[LastElement(key)..] + ".upload"
  }

  lemma TmpCut(key: string)
    ensures LastElement(TmpName(key)) == LastElement(key)
  {
    var t, r, q := TmpName(key), LastElement(key), LastElement(TmpName(key));
    assert forall j :: r <= j < |t| ==> t[j] != '/';
    if r > 0 {
      assert t[r - 1] == '/';
    }
  }

  /** Different keys have different temporary files. */
  lemma TmpInjective(k: string, l: string)
    requires TmpName(k) == TmpName(l)
    ensures k == l
  {
    TmpCut(k);
    TmpCut(l);
    var t, r := TmpName(k), LastElement(k);
    assert t[..r] == k[..r] && t[..r] == l[..r];
    assert t[r + 1..|t| - 7] == k[r..] && t[r + 1..|t| - 7] == l[r..];
    assert k == k[..r] + k[r..] && l == l[..r] + l[r..];
  }

  /** The temporary file stands beside the file, with a dot before its name and ".upload" after. */
  lemma TmpBeside(dir: string, file: string)
    requires '/' !in file
    ensures TmpName(dir + "/" + file) == dir + "/." + file + ".upload"
  {
    var k := dir + "/" + file;
    var n := |dir| + 1;
    assert k[n - 1] == '/' && forall j :: n <= j < |k| ==> k[j] == file[j - n];
    assert LastElement(k) == n;
    assert k[..n] == dir + "/" && k[n..] == file;
  }

  /** A name ending in ".upload" can be both a key and the temporary file of another key. */
  lemma TmpCanBeKey(k: string)
    requires Absolute(k)
    ensures Absolute(TmpName(k)) && TmpName(k) != k
  {
    assert LastElement(k) > 0;
  }

  // ---- tables ------------------------------------------------------------------------------

  /** The upload table, the part table keyed by its unique pair of token and index, and the
      files. */
  datatype Tables = Tables(
    uploads: map<string, Row>,
    parts: map<string, map<nat, string>>,
    files: map<string, Bytes>)

  function Look(files: map<string, Bytes>, path: string): Option<Bytes> {
    if path in files then Some(files[path]) else None
  }

  function FileAt(files: map<string, Bytes>, path: string): Bytes {
    if path in files then files[path] else []
  }

  function RowsAt(parts: map<string, map<nat, string>>, token: string): map<nat, string> {
    if token in parts then parts[token] else map[]
  }

  /** The temporary file and the part rows of one upload. */
  function UploadOf(t: Tables, key: string): Upload
    requires key in t.uploads
  {
    Upload(FileAt(t.files, TmpName(key)), RowsAt(t.parts, t.uploads[key].token))
  }

  /** The upload is the same in both: its row, its parts, its temporary file, there or not, and
      the file under its key once it is finished. */
  ghost predicate Same(t: Tables, u: Tables, key: string) {
    && key in t.uploads && key in u.uploads
    && t.uploads[key] == u.uploads[key]
    && RowsAt(t.parts, t.uploads[key].token) == RowsAt(u.parts, u.uploads[key].token)
    && Look(t.files, TmpName(key)) == Look(u.files, TmpName(key))
    && (t.uploads[key].state.Done? ==> Look(t.files, key) == Look(u.files, key))
  }

  ghost predicate TokenUsed(t: Tables, token: string) {
    exists k :: k in t.uploads && t.uploads[k].token == token
  }

  ghost predicate UniqueTokens(uploads: map<string, Row>) {
    forall k, l :: k in uploads && l in uploads && uploads[k].token == uploads[l].token ==> k == l
  }

  ghost predicate OwnedParts(t: Tables) {
    forall token :: token in t.parts ==> TokenUsed(t, token)
  }

  ghost predicate Named(uploads: map<string, Row>) {
    forall k :: k in uploads ==> Absolute(k) && uploads[k].tmpName == TmpName(k)
  }

  /** Tokens are unique, part rows belong to an upload, and every upload's temporary file is
      named after its key. */
  ghost predicate Inv(t: Tables) {
    UniqueTokens(t.uploads) && OwnedParts(t) && Named(t.uploads)
  }

  lemma StillUsed(t: Tables, u: Tables, token: string)
    requires TokenUsed(t, token)
    requires forall k :: k in t.uploads && t.uploads[k].token == token ==> k in u.uploads && u.uploads[k].token == token
    ensures TokenUsed(u, token)
  {
    var k :| k in t.uploads && t.uploads[k].token == token;
    assert k in u.uploads && u.uploads[k].token == token;
  }

  lemma AllStillUsed(t: Tables, u: Tables)
    requires OwnedParts(t) && forall token :: token in u.parts ==> token in t.parts
    requires forall k :: k in t.uploads && t.uploads[k].token in u.parts ==> k in u.uploads && u.uploads[k].token == t.uploads[k].token
    ensures OwnedParts(u)
  {
    hide TokenUsed;
    forall token | token in u.parts ensures TokenUsed(u, token) {
      StillUsed(t, u, token);
    }
  }

  lemma FilesKeepInv(t: Tables, files: map<string, Bytes>)
    requires Inv(t)
    ensures Inv(t.(files := files))
  {
    hide TmpName, Absolute;
    AllStillUsed(t, t.(files := files));
  }

  lemma InsertKeepsInv(t: Tables, key: string, row: Row)
    requires Inv(t) && Absolute(key) && key !in t.uploads && !TokenUsed(t, row.token) && row.tmpName == TmpName(key)
    ensures Inv(t.(uploads := t.uploads[key := row]))
  {
    hide TmpName, Absolute;
    assert forall k :: k in t.uploads ==> t.uploads[k].token != row.token;
    AllStillUsed(t, t.(uploads := t.uploads[key := row]));
  }

  lemma Inserted(t: Tables, key: string, row: Row)
    requires Inv(t) && Absolute(key) && key !in t.uploads && !TokenUsed(t, row.token) && row.tmpName == TmpName(key)
    ensures var u := t.(uploads := t.uploads[key := row]);
            Inv(u) && UploadOf(u, key) == Upload(FileAt(t.files, TmpName(key)), map[]) && forall k :: k in t.uploads ==> Same(t, u, k)
  {
    hide TmpName, Absolute, FileAt, Look, UniqueTokens, Named, TokenUsed;
    InsertKeepsInv(t, key, row);
    assert row.token !in t.parts;
  }

  lemma RewriteKeepsInv(t: Tables, key: string, row: Row)
    requires Inv(t) && key in t.uploads && row.token == t.uploads[key].token && row.tmpName == TmpName(key)
    ensures Inv(t.(uploads := t.uploads[key := row]))
  {
    hide TmpName, Absolute;
    AllStillUsed(t, t.(uploads := t.uploads[key := row]));
  }

  lemma Rewritten(t: Tables, key: string, row: Row)
    requires Inv(t) && key in t.uploads && row.token == t.uploads[key].token && row.tmpName == TmpName(key)
    ensures var u := t.(uploads := t.uploads[key := row]);
            Inv(u) && UploadOf(u, key) == UploadOf(t, key) && forall k :: k in t.uploads && k != key ==> Same(t, u, k)
  {
    hide TmpName, Absolute, FileAt, Look, Inv;
    RewriteKeepsInv(t, key, row);
  }

  lemma PartRecorded(t: Tables, key: string, idx: nat, md5: string)
    requires Inv(t) && key in t.uploads
    ensures var token := t.uploads[key].token;
            var u := t.(parts := t.parts[token := RowsAt(t.parts, token)[idx := md5]]);
            && Inv(u)
            && UploadOf(u, key) == Upload(UploadOf(t, key).file, UploadOf(t, key).rows[idx := md5])
            && forall k :: k in t.uploads && k != key ==> Same(t, u, k)
  {
    hide TmpName, Absolute, FileAt, Look;
    var token := t.uploads[key].token;
    var u := t.(parts := t.parts[token := RowsAt(t.parts, token)[idx := md5]]);
    forall o | o in u.parts ensures TokenUsed(u, o) {
      if o == token {
        assert key in u.uploads && u.uploads[key].token == o;
      } else {
        StillUsed(t, u, o);
      }
    }
  }

  lemma DestroyKeepsInv(t: Tables, key: string, files: map<string, Bytes>)
    requires Inv(t) && key in t.uploads
    ensures Inv(Tables(t.uploads - {key}, t.parts - {t.uploads[key].token}, files))
  {
    hide TmpName, Absolute;
    AllStillUsed(t, Tables(t.uploads - {key}, t.parts - {t.uploads[key].token}, files));
  }

  // ---- which other uploads an operation changes ----------------------------------------------

  /** Between t and v, the rows and parts of other uploads are untouched, and so are all files
      but the one under key and its temporary file. */
  ghost predicate Touches(t: Tables, v: Tables, key: string) {
    && (forall k :: k in t.uploads && k != key ==>
          k in v.uploads && v.uploads[k] == t.uploads[k] && RowsAt(v.parts, t.uploads[k].token) == RowsAt(t.parts, t.uploads[k].token))
    && (forall p :: p != key && p != TmpName(key) ==> Look(v.files, p) == Look(t.files, p))
  }

  /** Upload k is finished, its result is the temporary file of key, and that has changed. */
  predicate ResultLost(t: Tables, v: Tables, key: string, k: string)
    requires k in t.uploads
  {
    k == TmpName(key) && t.uploads[k].state.Done? && Look(v.files, k) != Look(t.files, k)
  }

  /** The temporary file of k is the file under key, and that has changed. */
  predicate PartsLost(t: Tables, v: Tables, key: string, k: string) {
    TmpName(k) == key && Look(v.files, key) != Look(t.files, key)
  }

  /** Another upload is changed exactly in one of these two ways. */
  lemma ChangedIff(t: Tables, v: Tables, key: string, k: string)
    requires Touches(t, v, key) && k in t.uploads && k != key
    ensures Same(t, v, k) <==> !ResultLost(t, v, key, k) && !PartsLost(t, v, key, k)
  {
    hide TmpName, Look;
    if TmpName(k) == TmpName(key) {
      TmpInjective(k, key);
    }
  }

  lemma TouchesTwice(t: Tables, u: Tables, v: Tables, key: string)
    requires Touches(t, u, key) && Touches(u, v, key)
    ensures Touches(t, v, key)
  {
    hide TmpName, Look, RowsAt;
  }

  lemma TouchesFiles(t: Tables, files: map<string, Bytes>, key: string)
    requires forall p :: p != key && p != TmpName(key) ==> Look(files, p) == Look(t.files, p)
    ensures Touches(t, t.(files := files), key)
  {
    hide TmpName, Look;
  }

  /** An operation that leaves every other upload the same touches no file. */
  lemma TouchesNoFile(t: Tables, v: Tables, key: string)
    requires t.files == v.files && forall k :: k in t.uploads && k != key ==> Same(t, v, k)
    ensures Touches(t, v, key)
  {
    hide TmpName, Look;
  }

  lemma DestroyTouches(t: Tables, key: string)
    requires Inv(t) && key in t.uploads
    ensures Touches(t, Tables(t.uploads - {key}, t.parts - {t.uploads[key].token}, t.files - {TmpName(key)}), key)
  {
    hide TmpName, Absolute, Named, OwnedParts;
    var token := t.uploads[key].token;
    assert forall k :: k in t.uploads && k != key ==> t.uploads[k].token != token;
  }

  /** A body written at an offset, and its row if it is accepted. */
  function PartSent(h: Hash, off: nat, u: Upload, a: Attempt): Upload {
    Upload(WriteAt(u.file, off, a.body), if Accepted(h, a) then u.rows[a.idx := Hex(h(a.body))] else u.rows)
  }

  /** A body for this offset leaves the bytes of the file as they are. */
  predicate KeepsBytes(f: Bytes, off: nat, body: Bytes) {
    off >= TWO_63 || Repeats(f, off, body)
  }

  lemma KeepsBytesIff(h: Hash, t: Tables, v: Tables, key: string, idx: nat, claimed: string, body: Bytes)
    requires key in t.uploads && key in v.uploads && t.uploads[key] == v.uploads[key]
    requires Look(v.files, TmpName(key)) == Some(UploadOf(v, key).file)
    requires
      var off := t.uploads[key].chunkSize * idx % TWO_64;
      UploadOf(v, key) == if off >= TWO_63 then UploadOf(t, key) else PartSent(h, off, UploadOf(t, key), Attempt(idx, body, claimed))
    ensures
      var name, off := TmpName(key), t.uploads[key].chunkSize * idx % TWO_64;
      Look(t.files, name) == Look(v.files, name) <==> name in t.files && KeepsBytes(t.files[name], off, body)
  {
    hide TmpName, RowsAt, WriteAt, Repeats, Accepted;
    var name, off := TmpName(key), t.uploads[key].chunkSize * idx % TWO_64;
    if name in t.files {
      WriteKeepsIff(t.files[name], off, body);
    }
  }

  /** Below the wrap-around a request is a step of Multipart. */
  lemma SentIsUploaded(h: Hash, c: nat, u: Upload, a: Attempt)
    requires c * a.idx < TWO_63
    ensures PartSent(h, c * a.idx % TWO_64, u, a) == Uploaded(h, c, u, a)
  {
    assert Offset(c, a.idx) == c * a.idx % TWO_64;
  }

  lemma ListingsPermute(a: seq<Entry<string>>, b: seq<Entry<string>>, rows: map<nat, string>)
    requires Lists(a, rows) && Lists(b, rows)
    ensures multiset(a) == multiset(b) && Sort(a) == Sort(b)
  {
    hide Sort;
    forall e | e in a ensures e in b {
      assert Entry(e.idx, rows[e.idx]) in b;
    }
    forall e | e in b ensures e in a {
      assert Entry(e.idx, rows[e.idx]) in a;
    }
    SameEntries(a, b);
    SortOfPermutation(a, b);
  }

  /** What the server expects at completion does not depend on how the rows are listed. */
  lemma TagOfRows(h: Hash, a: seq<Entry<string>>, b: seq<Entry<string>>, rows: map<nat, string>)
    requires Lists(a, rows) && Lists(b, rows)
    ensures ServerTag(h, a) == ServerTag(h, b)
  {
    ListingsPermute(a, b, rows);
    hide Sort, Lists;
  }

  /** SELECT of all rows of a token: each once, in no particular order. */
  method ListRows(rows: map<nat, string>) returns (listing: seq<Entry<string>>)
    ensures Lists(listing, rows)
  {
    listing := [];
    var left := rows.Keys;
    while left != {}
      invariant left <= rows.Keys
      invariant Distinct(listing)
      invariant forall k :: 0 <= k < |listing| ==> listing[k].idx in rows && listing[k].idx !in left && rows[listing[k].idx] == listing[k].value
      invariant forall i :: i in rows && i !in left ==> Entry(i, rows[i]) in listing
      decreases left
    {
      var i :| i in left;
      ghost var before := listing;
      listing := listing + [Entry(i, rows[i])];
      left := left - {i};
      assert forall e :: e in before ==> e in listing;
      assert Entry(i, rows[i]) in listing;
    }
  }

  lemma {:induction false} PrefixFails(s: seq<Entry<string>>, k: nat)
    requires k <= |s| && Joined(s[..k]).None?
    ensures Joined(s).None?
    decreases |s| - k
  {
    if k < |s| {
      assert s[..k + 1][..k] == s[..k];
      PrefixFails(s, k + 1);
    } else {
      assert s[..k] == s;
    }
  }

  /** The loop of both completions: decode each digest and append it. */
  method AppendDigests(sorted: seq<Entry<string>>) returns (byteSlice: Option<Bytes>)
    ensures byteSlice == Joined(sorted)
  {
    hide Unhex;
    var bytes := [];
    for k := 0 to |sorted|
      invariant Joined(sorted[..k]) == Some(bytes)
    {
      assert sorted[..k + 1][..k] == sorted[..k];
      var decoded := Unhex(sorted[k].value);
      if decoded.None? {
        PrefixFails(sorted, k + 1);
        return None;
      }
      bytes := bytes + decoded.value;
    }
    assert sorted[..|sorted|] == sorted;
    byteSlice := Some(bytes);
  }

  // ---- the server --------------------------------------------------------------------------

  class Server {
    const h: Hash
    var uploads: map<string, Row>
    var parts: map<string, map<nat, string>>
    var files: map<string, Bytes>

    function Db(): Tables
      reads this`uploads, this`parts, this`files
    {
      Tables(uploads, parts, files)
    }

    constructor (h: Hash)
      ensures Inv(Db()) && this.h == h && Db() == Tables(map[], map[], map[])
    {
      this.h := h;
      uploads, parts, files := map[], map[], map[];
    }

    /** LoadUpload: the upload with this token. */
    method LoadUpload(token: string) returns (found: Option<string>)
      requires Inv(Db())
      ensures found.Some? ==> found.value in uploads && forall k :: k in uploads ==> (uploads[k].token == token <==> k == found.value)
      ensures found.None? ==> !TokenUsed(Db(), token)
    {
      if k :| k in uploads && uploads[k].token == token {
        found := Some(k);
      } else {
        found := None;
      }
    }

    /** A key has one upload; the database refuses a second upload with a token.  The one there
        is goes on if it has these sizes and its file is there: the temporary file while it is
        running, and once it is finished its result, with every byte. */
    method InitUpload(key: string, size: nat, chunkSize: nat, id: string)
      returns (token: string, existed: bool, fault: Option<Fault>)
      requires Inv(Db()) && Absolute(key)
      modifies this`uploads
      ensures Inv(Db())
      ensures existed == (key in old(uploads))
      ensures forall k :: k in old(uploads) ==> Same(old(Db()), Db(), k)
      ensures existed ==> uploads == old(uploads) && token == uploads[key].token
      ensures existed ==> fault.None? || fault == Some(Corrupted)
      ensures existed ==>
        (fault.None? <==>
          && uploads[key].chunkSize == chunkSize && uploads[key].size == size
          && (uploads[key].state.Running? ==> TmpName(key) in files)
          && (uploads[key].state.Done? ==> key in files && |files[key]| == size))
      ensures !existed ==> fault == if TokenUsed(old(Db()), id) then Some(DuplicateToken) else None
      ensures !existed && fault.Some? ==> token == "" && uploads == old(uploads)
      ensures !existed && fault.None? ==>
        && token == id
        && uploads == old(uploads)[key := Row(id, TmpName(key), size, chunkSize, "", Running)]
        && UploadOf(Db(), key) == Upload(FileAt(files, TmpName(key)), map[])
    {
      hide TmpName, Absolute, UploadOf, LastElement, Look, RowsAt, UniqueTokens, OwnedParts;
      if key in uploads {
        TmpNamed(Db(), key);
        var up := uploads[key];
        if up.chunkSize != chunkSize || up.size != size {
          return up.token, true, Some(Corrupted);
        }
        if up.tmpName !in files && up.state == Running {
          return up.token, true, Some(Corrupted);
        }
        if up.state == Done {
          if key !in files {
            return up.token, true, Some(Corrupted);
          }
          if |files[key]| != up.size {
            return up.token, true, Some(Corrupted);
          }
        }
        return up.token, true, None;
      }
      var taken := LoadUpload(id);
      if taken.Some? {
        assert TokenUsed(Db(), id);
        return "", false, Some(DuplicateToken);
      }
      var row := Row(id, TmpName(key), size, chunkSize, "", Running);
      Inserted(Db(), key, row);
      uploads := uploads[key := row];
      assert Db() == old(Db()).(uploads := uploads);
      token, existed, fault := id, false, None;
    }

    method LoadParts(token: string) returns (listing: seq<Entry<string>>)
      ensures Lists(listing, RowsAt(parts, token))
    {
      listing := ListRows(RowsAt(parts, token));
    }

    /** The upsert on (token, idx), under the token the key's upload has now. */
    method RecordPart(key: string, idx: nat, md5: string) returns (fault: Option<Fault>)
      requires Inv(Db())
      modifies this`parts
      ensures Inv(Db())
      ensures fault == if key in uploads then None else Some(NotFound)
      ensures fault.Some? ==> parts == old(parts)
      ensures key in uploads ==> UploadOf(Db(), key) == Upload(old(UploadOf(Db(), key)).file, old(UploadOf(Db(), key)).rows[idx := md5])
      ensures forall k :: k in uploads && k != key ==> Same(old(Db()), Db(), k)
    {
      hide Inv, UploadOf, Same, RowsAt;
      SameAsItself(Db());
      if key !in uploads {
        return Some(NotFound);
      }
      PartRecorded(Db(), key, idx, md5);
      var token := uploads[key].token;
      parts := parts[token := RowsAt(parts, token)[idx := md5]];
      assert Db() == old(Db()).(parts := parts);
      fault := None;
    }

    /** Rows, temporary file and upload of a token go; an unknown token is an error.  Another
        upload is changed exactly if it is finished and its file was that temporary file. */
    method DestroyUploadByToken(token: string) returns (fault: Option<Fault>)
      requires Inv(Db())
      modifies this`uploads, this`parts, this`files
      ensures Inv(Db())
      ensures fault == if TokenUsed(old(Db()), token) then None else Some(NotFound)
      ensures fault.Some? ==> Db() == old(Db())
      ensures forall key :: key in old(uploads) && old(uploads)[key].token == token ==>
        && Db() == Tables(old(uploads) - {key}, old(parts) - {token}, old(files) - {TmpName(key)})
        && Touches(old(Db()), Db(), key)
        && forall k :: k in old(uploads) && k != key ==>
          (Same(old(Db()), Db(), k) <==> !(k == TmpName(key) && old(uploads)[k].state.Done? && k in old(files)))
    {
      hide TmpName, UniqueTokens, Same, Touches, RowsAt;
      var found := LoadUpload(token);
      ghost var t := Db();
      parts := parts - {token};
      if found.None? {
        UnusedHasNoParts(t, token);
        return Some(NotFound);
      }
      var key := found.value;
      assert TokenUsed(t, token);
      DestroyKeepsInv(t, key, files - {TmpName(key)});
      DestroyTouches(t, key);
      files := files - {uploads[key].tmpName};
      uploads := uploads - {key};
      fault := None;
      assert Db() == Tables(t.uploads - {key}, t.parts - {token}, t.files - {TmpName(key)});
      KeyIsNotTmp(t, key);
      forall k | k in t.uploads && k != key
        ensures Same(t, Db(), k) <==> !(k == TmpName(key) && t.uploads[k].state.Done? && k in t.files)
      {
        ChangedIff(t, Db(), key, k);
      }
    }

    /** initMultipartUpload: a new upload (2001), the one there is (2002), or, when that one is
        corrupted, a new one in its place (2003), whose token is empty if it was refused. */
    method InitMultipartUpload(key: string, size: nat, chunkMB: nat, id: string)
      returns (code: nat, token: string, list: seq<Entry<string>>, fault: Option<Fault>)
      requires Inv(Db()) && Absolute(key)
      modifies this`uploads, this`parts, this`files
      ensures Inv(Db())
      ensures Touches(old(Db()), Db(), key)
      ensures code != 2003 ==> forall k :: k in old(uploads) ==> Same(old(Db()), Db(), k)
      ensures code == 2003 ==> forall k :: k in old(uploads) && k != key ==>
        (Same(old(Db()), Db(), k) <==>
          && !(k == TmpName(key) && old(uploads)[k].state.Done? && k in old(files))
          && !(TmpName(k) == key && key in old(files)))
      ensures fault.Some? <==> key !in old(uploads) && TokenUsed(old(Db()), id)
      ensures fault.Some? ==> code == 0 && Db() == old(Db())
      ensures fault.None? ==>
        && (code == 2001 || code == 2002 || code == 2003) && (code == 2001 <==> key !in old(uploads))
        && (code == 2002 <==>
              && key in old(uploads)
              && old(uploads)[key].chunkSize == chunkMB * MB % TWO_64 && old(uploads)[key].size == size
              && (old(uploads)[key].state.Running? ==> TmpName(key) in old(files))
              && (old(uploads)[key].state.Done? ==> key in old(files) && |old(files)[key]| == size))
      ensures code == 2001 ==>
        && uploads == old(uploads)[key := Row(id, TmpName(key), size, chunkMB * MB % TWO_64, "", Running)]
        && parts == old(parts) && files == old(files) && list == [] && UploadOf(Db(), key).rows == map[]
      ensures code == 2002 ==> key in uploads && Db() == old(Db()) && Lists(list, UploadOf(Db(), key).rows)
      ensures code == 2003 ==> files == old(files) - {TmpName(key)} - {key} && list == []
      ensures code == 2003 && key in uploads ==> UploadOf(Db(), key) == Upload([], map[])
      ensures code == 2003 && key !in uploads ==> token == ""
      ensures code == 2003 ==> (key in uploads <==> forall k :: k in old(uploads) && k != key ==> old(uploads)[k].token != id)
      ensures code == 2003 && key in uploads ==> token == id && uploads[key].state.Running?
      ensures fault.None? && key in uploads ==>
        token == uploads[key].token && uploads[key].size == size && uploads[key].chunkSize == chunkMB * MB % TWO_64
    {
      hide Inv, Same, TmpName, Absolute, Lists, TokenUsed, Touches;
      ghost var t := Db();
      var existed, initFault;
      token, existed, initFault := InitUpload(key, size, chunkMB * MB % TWO_64, id);
      TouchesNoFile(t, Db(), key);
      if existed {
        assert Db() == t;
      }
      if existed {
        if initFault.Some? {
          token := Restart(key, size, chunkMB * MB % TWO_64, id, token);
          return 2003, token, [], None;
        }
        list := LoadParts(token);
        return 2002, token, list, None;
      }
      if initFault.Some? {
        return 0, "", [], initFault;
      }
      return 2001, token, [], None;
    }

    /** The corrupted upload is destroyed, with the file under its key, and begun again.
        Another upload is changed exactly if its result was the temporary file, or its
        temporary file was the file under the key. */
    method Restart(key: string, size: nat, chunkSize: nat, id: string, stale: string) returns (token: string)
      requires Inv(Db()) && Absolute(key) && key in uploads && uploads[key].token == stale
      modifies this`uploads, this`parts, this`files
      ensures Inv(Db()) && Touches(old(Db()), Db(), key)
      ensures forall k :: k in old(uploads) && k != key ==>
        (Same(old(Db()), Db(), k) <==>
          && !(k == TmpName(key) && old(uploads)[k].state.Done? && k in old(files))
          && !(TmpName(k) == key && key in old(files)))
      ensures files == old(files) - {TmpName(key)} - {key}
      ensures key in uploads ==> UploadOf(Db(), key) == Upload([], map[])
      ensures key in uploads ==> uploads[key] == Row(token, TmpName(key), size, chunkSize, "", Running)
      ensures key !in uploads ==> token == ""
      ensures key in uploads <==> forall k :: k in old(uploads) && k != key ==> old(uploads)[k].token != id
      ensures key in uploads ==> token == id
    {
      hide Inv, Same, TmpName, Touches, Absolute, RowsAt;
      ghost var t := Db();
      var gone := DestroyUploadByToken(stale);
      ghost var destroyed := Db();
      files := files - {key};
      ghost var removed := Db();
      FilesKeepInv(destroyed, files);
      TouchesFiles(destroyed, files, key);
      TouchesTwice(t, destroyed, removed, key);
      UsedElsewhere(t, removed, key, id);
      var existed, refused;
      token, existed, refused := InitUpload(key, size, chunkSize, id);
      TouchesNoFile(removed, Db(), key);
      TouchesTwice(t, removed, Db(), key);
      KeyIsNotTmp(t, key);
      forall k | k in t.uploads && k != key
        ensures Same(t, Db(), k) <==>
          && !(k == TmpName(key) && t.uploads[k].state.Done? && k in t.files)
          && !(TmpName(k) == key && key in t.files)
      {
        ChangedIff(t, Db(), key, k);
      }
    }

    /** uploadPart: the body is written at its offset, and recorded if its digest is the claimed
        one.  The offset is a product of 64-bit numbers, so it wraps around; one that is
        negative as a signed number cannot be sought.  Another upload is changed exactly if
        it is finished, its file is this temporary file, and not this: the file is there, and
        the offset cannot be sought or the body repeats what stands at it. */
    method UploadPart(token: string, idx: nat, claimed: string, body: Bytes) returns (fault: Option<Fault>)
      requires Inv(Db())
      modifies this`parts, this`files
      ensures Inv(Db())
      ensures fault == Some(NotFound) <==> !TokenUsed(old(Db()), token)
      ensures fault == Some(NotFound) ==> Db() == old(Db())
      ensures forall key :: key in uploads && uploads[key].token == token ==>
        && Touches(old(Db()), Db(), key)
        && (forall path :: path != TmpName(key) ==> Look(files, path) == Look(old(files), path))
        && Look(files, TmpName(key)) == Some(UploadOf(Db(), key).file)
        && var off := uploads[key].chunkSize * idx % TWO_64;
           if off >= TWO_63 then
             fault == Some(SeekFailed) && UploadOf(Db(), key) == old(UploadOf(Db(), key))
           else
             && fault == (if Hex(h(body)) == claimed then None else Some(PartCorrupted))
             && UploadOf(Db(), key) == PartSent(h, off, old(UploadOf(Db(), key)), Attempt(idx, body, claimed))
      ensures forall key, k :: key in uploads && uploads[key].token == token && k in uploads && k != key ==>
        (Same(old(Db()), Db(), k) <==>
          !(k == TmpName(key) && uploads[k].state.Done?
            && !(k in old(files) && KeepsBytes(old(files)[k], uploads[key].chunkSize * idx % TWO_64, body))))
    {
      hide Inv, Same, TmpName, UploadOf, WriteAt, Touches, PartSent, RowsAt;
      var found := LoadUpload(token);
      if found.None? {
        return Some(NotFound);
      }
      UsedToken(Db(), found.value);
      fault := SendPart(found.value, idx, claimed, body);
      ghost var key := found.value;
      KeyIsNotTmp(Db(), key);
      forall k | k in uploads && k != key
        ensures Same(old(Db()), Db(), k) <==>
          !(k == TmpName(key) && uploads[k].state.Done?
            && !(k in old(files) && KeepsBytes(old(files)[k], uploads[key].chunkSize * idx % TWO_64, body)))
      {
        ChangedIff(old(Db()), Db(), key, k);
        KeepsBytesIff(h, old(Db()), Db(), key, idx, claimed, body);
      }
    }

    /** uploadPart once the upload is loaded. */
    method SendPart(key: string, idx: nat, claimed: string, body: Bytes) returns (fault: Option<Fault>)
      requires Inv(Db()) && key in uploads
      modifies this`parts, this`files
      ensures Inv(Db()) && Touches(old(Db()), Db(), key)
      ensures forall path :: path != TmpName(key) ==> Look(files, path) == Look(old(files), path)
      ensures Look(files, TmpName(key)) == Some(UploadOf(Db(), key).file)
      ensures fault != Some(NotFound)
      ensures
        var off := uploads[key].chunkSize * idx % TWO_64;
        if off >= TWO_63 then
          fault == Some(SeekFailed) && UploadOf(Db(), key) == old(UploadOf(Db(), key))
        else
          && fault == (if Hex(h(body)) == claimed then None else Some(PartCorrupted))
          && UploadOf(Db(), key) == PartSent(h, off, old(UploadOf(Db(), key)), Attempt(idx, body, claimed))
    {
      hide Inv, Same, TmpName, WriteAt, Touches, RowsAt, Hex;
      var upInfo := uploads[key];
      var name := upInfo.tmpName;
      TmpNamed(Db(), key);
      if name !in files {
        files := files[name := []];
      }
      var offset := upInfo.chunkSize * idx % TWO_64;
      if offset >= TWO_63 {
        FilesKeepInv(old(Db()), files);
        TouchesFiles(old(Db()), files, key);
        return Some(SeekFailed);
      }
      files := files[name := WriteAt(files[name], offset, body)];
      ghost var written := Db();
      FilesKeepInv(old(Db()), files);
      TouchesFiles(old(Db()), files, key);
      var md5Calc := Hex(h(body));
      if md5Calc != claimed {
        return Some(PartCorrupted);
      }
      fault := RecordPart(key, idx, md5Calc);
      TouchesNoFile(written, Db(), key);
      TouchesTwice(old(Db()), written, Db(), key);
    }

    /** CompletePart: compare with the digest of the stored rows.  An unknown key has no rows. */
    method CompletePart(key: string, actualMD5: string) returns (fault: Option<Fault>)
      requires Inv(Db())
      modifies this`uploads
      ensures Inv(Db())
      ensures key !in old(uploads) ==> fault.Some?
      ensures fault.None? || fault == Some(InvalidMD5) || fault == Some(CompleteFailed)
      ensures key in old(uploads) ==> forall listing :: Lists(listing, old(UploadOf(Db(), key)).rows) ==>
        && (fault.None? <==> ServerTag(h, listing) == Composite(actualMD5))
        && (fault == Some(InvalidMD5) <==> ServerTag(h, listing).Undecodable?)
      ensures fault.Some? ==> uploads == old(uploads)
      ensures fault.None? ==> uploads == old(uploads)[key := old(uploads)[key].(md5 := actualMD5, state := Done)]
      ensures fault.None? ==> UploadOf(Db(), key) == old(UploadOf(Db(), key))
      ensures forall k :: k in old(uploads) && k != key ==> Same(old(Db()), Db(), k)
    {
      hide Inv, Same, Lists, ServerTag, TmpName, RowsAt, FileAt;
      SameAsItself(Db());
      if key !in uploads {
        return Some(CompleteFailed);
      }
      TmpNamed(Db(), key);
      ghost var rows := RowsAt(parts, uploads[key].token);
      var row := uploads[key].(md5 := actualMD5, state := Done);
      Rewritten(Db(), key, row);
      var listing := LoadParts(uploads[key].token);
      var wanted := ExpectedTag(listing);
      forall l | Lists(l, rows) ensures ServerTag(h, l) == wanted {
        TagOfRows(h, l, listing, rows);
      }
      match wanted
      case Undecodable => return Some(InvalidMD5);
      case NoParts => return Some(CompleteFailed);
      case Composite(tag) =>
        if tag != actualMD5 {
          return Some(CompleteFailed);
        }
        uploads := uploads[key := row];
        assert Db() == old(Db()).(uploads := uploads);
        fault := None;
    }

    method ExpectedTag(listing: seq<Entry<string>>) returns (r: Composite)
      ensures r == ServerTag(h, listing)
    {
      hide Joined, Sort, Hex, Dec;
      var sorted := Sort(listing);
      var byteSlice := AppendDigests(sorted);
      if byteSlice.None? {
        return Undecodable;
      }
      var expectMD5 := Hex(h(byteSlice.value));
      if |sorted| == 0 {
        return NoParts;
      } else if |sorted| == 1 {
        return Composite(sorted[0].value);
      } else {
        return Composite(expectMD5 + "-" + Dec(|sorted|));
      }
    }

    method DerivedTag(list: seq<Entry<string>>) returns (r: Composite)
      ensures r == ClientTag(h, list)
    {
      hide Joined, Sort, Hex, Dec;
      var sorted := Sort(list);
      var byteSlice := AppendDigests(sorted);
      if byteSlice.None? {
        return Undecodable;
      }
      var clientMD5 := Hex(h(byteSlice.value));
      if |sorted| > 1 {
        clientMD5 := clientMD5 + "-" + Dec(|sorted|);
      }
      r := Composite(clientMD5);
    }

    /** completePart: derive the client's digest from its list, complete, and give the file its
        name.  When there is a file to rename, another upload is changed exactly if its result
        was that file, or its temporary file is under the key and had other bytes. */
    method CompleteUpload(key: string, list: seq<Entry<string>>) returns (etag: string, fault: Option<Fault>)
      requires Inv(Db())
      modifies this`uploads, this`files
      ensures Inv(Db())
      ensures key !in old(uploads) ==> fault == Some(NotFound)
      ensures key in old(uploads) ==> forall listing :: Lists(listing, old(UploadOf(Db(), key)).rows) ==>
        && (fault.None? <==> Completes(h, list, listing))
        && (fault == Some(PartCorrupted) <==> !ClientTag(h, list).Composite?)
        && (fault == Some(InvalidMD5) <==> ClientTag(h, list).Composite? && ServerTag(h, listing).Undecodable?)
      ensures fault.Some? ==> Db() == old(Db())
      ensures fault.None? ==>
        && ClientTag(h, list) == Composite(etag)
        && uploads == old(uploads)[key := old(uploads)[key].(md5 := etag, state := Done)]
        && files == if TmpName(key) in old(files)
                    then (old(files) - {TmpName(key)})[key := old(files)[TmpName(key)]]
                    else old(files)
      ensures fault.None? ==> Touches(old(Db()), Db(), key)
      ensures fault.None? ==> forall k :: k in old(uploads) && k != key ==>
        (Same(old(Db()), Db(), k) <==>
          !(TmpName(key) in old(files) &&
            ((k == TmpName(key) && old(uploads)[k].state.Done?) ||
             (TmpName(k) == key && Look(old(files), key) != Look(old(files), TmpName(key))))))
    {
      hide Inv, Same, Lists, ServerTag, ClientTag, UploadOf, TmpName, Touches, RowsAt;
      ghost var t := Db();
      if key !in uploads {
        return "", Some(NotFound);
      }
      var tmpName := uploads[key].tmpName;
      TmpNamed(t, key);
      KeyIsNotTmp(t, key);
      var derived := DerivedTag(list);
      match derived
      case Undecodable => return "", Some(PartCorrupted);
      case NoParts => return "", Some(PartCorrupted);
      case Composite(clientMD5) =>
        fault := CompletePart(key, clientMD5);
        if fault.Some? {
          assert Db() == old(Db());
          return "", fault;
        }
        etag := clientMD5;
        ghost var completed := Db();
        TouchesNoFile(t, completed, key);
        if tmpName in files {
          files := (files - {tmpName})[key := files[tmpName]];
          FilesKeepInv(completed, files);
          TouchesFiles(completed, files, key);
          TouchesTwice(t, completed, Db(), key);
        }
        forall k | k in t.uploads && k != key
          ensures Same(t, Db(), k) <==>
            !(TmpName(key) in t.files &&
              ((k == TmpName(key) && t.uploads[k].state.Done?) ||
               (TmpName(k) == key && Look(t.files, key) != Look(t.files, TmpName(key)))))
        {
          ChangedIff(t, Db(), key, k);
        }
    }
  }

  lemma UnusedHasNoParts(t: Tables, token: string)
    requires Inv(t) && !TokenUsed(t, token)
    ensures t.parts - {token} == t.parts
  {
    hide TokenUsed;
    assert token !in t.parts;
  }

  lemma UsedElsewhere(t: Tables, u: Tables, key: string, token: string)
    requires u.uploads == t.uploads - {key}
    ensures !TokenUsed(u, token) <==> forall k :: k in t.uploads && k != key ==> t.uploads[k].token != token
  {
    if k :| k in t.uploads && k != key && t.uploads[k].token == token {
      assert k in u.uploads && u.uploads[k].token == token;
    }
  }

  lemma UsedToken(t: Tables, key: string)
    requires key in t.uploads
    ensures TokenUsed(t, t.uploads[key].token)
  {
  }

  lemma TmpNamed(t: Tables, key: string)
    requires Inv(t) && key in t.uploads
    ensures t.uploads[key].tmpName == TmpName(key)
  {
  }

  lemma KeyIsNotTmp(t: Tables, key: string)
    requires Inv(t) && key in t.uploads
    ensures TmpName(key) != key
  {
    TmpCanBeKey(key);
  }

  lemma SameAsItself(t: Tables)
    ensures forall k :: k in t.uploads ==> Same(t, t, k)
  {
    hide TmpName, Look, RowsAt;
  }
}

# Protocol and storage proofs

A Dafny model of the concurrent and stateful parts of the file agent, with proofs of what they
promise. `dafny verify dfyconfig.toml` checks everything.

| file | what it models |
|---|---|
| `BufferPool.dfy` | the recycling buffer pool: counters, fill history, aged flushes |
| `ReadAhead.dfy` | the protocol between the read-ahead goroutine, its consumer and the pool, as a state machine over all interleavings |
| `ReadAheadRuns.dfy` | what that protocol guarantees, over all runs |
| `AsyncReader.dfy` | the same reader as an object with the source's fields and loops; every write to a field is one action of `ReadAhead` |
| `ReadFill.dfy` | filling a buffer from a reader that may return short reads |
| `ChunkHash.dfy` | the sequential and the concurrent chunk hasher |
| `Multipart.dfy` | any run of part uploads: the file, the rows, the composite digests |
| `UploadServer.dfy` | the upload tables, the files, and the operations on them |
| `UploadSession.dfy` | whole conversations with that server |
| `Throttle.dfy` | admission of backups and restores under a condition variable |
| `Queue.dfy` | the worker pool |
| `DownloadCache.dfy` | batching of download sizes until they are billed |
| `CommonPrefix.dfy` | the common directory of a list of paths |
| `Progress.dfy` | the upload progress gatherer and its handler |
| `Ancestor.dfy` | the search for the nearest ancestor with snapshots |
| `Basics.dfy`, `Text.dfy`, `Sorting.dfy` | options and bytes; hex, decimal and file names; stable sorting by index |

## How the model stands to the code

- A goroutine protocol is a value `State`, a datatype of atomic steps, `Enabled` and `Apply`, and an
  invariant. One step is the work between two points where another goroutine can observe the state, so
  the runs are all interleavings. The class beside it has the source's fields and loops, and each
  method is proved to perform exactly the named steps.
- MD5 (RFC 1321) is an arbitrary function from byte strings to 16 bytes, a parameter of every operation
  that hashes. Nothing assumes that it is free of collisions: where that matters the conclusion is
  "equal, or these two byte strings, which the statement names, collide".
- Numbers are unbounded where the source's cannot overflow in practice. Where they can, in the offset of a
  part and in the chunk hashers, 64-bit arithmetic is written out.
- A reader is built with or without another goroutine that may call StopBuffering meanwhile; a sink and a
  source follow a script that says what they do with each call.
- The database is a map keyed by its unique columns, listed in an arbitrary order. Files are a map from
  names to bytes. A context is a flag. Timers and timeouts are steps that may happen at any moment.
- Library functions stand for themselves: sorting is stable insertion by index, proved to be an ordered
  rearrangement; `filepath.Clean`, `Dir` and `Base` are written out; `path.Clean` in the common-directory
  computation is an arbitrary function.

## What turned out false, and the exact condition

- **A rejected part has already overwritten its range.** After a complete upload, a rejected body of any
  length and at any index leaves the rows and the composite digest; it leaves the bytes exactly when it
  repeats what stands at its place (`Multipart.RejectedOverwrites`, with a harmless and a harmful retry in
  `Multipart.CutRetry`). For any attempts at all, the file is the client's exactly when they reach as far and
  the last body to cover each position, or else what was there, has its byte (`Multipart.FileIff`); when the
  last body at every index has its chunk's length, exactly when each is its chunk (`Multipart.FullBodiesIff`).
- **A single part cannot be completed by listing it.** One stored part is accepted exactly when the client
  lists at most one entry whose decoded bytes hash to the stored digest (`Multipart.OneRowIff`); listing the part
  itself, its digest would have to be its own digest (`Multipart.OnePartIff`, `Multipart.OnePartRefused`).
- **The server does not check that the client lists digests.** The same hex text cut up differently is accepted,
  under any hash (`Multipart.RegroupedCompletes`); of a list of 16-byte digests acceptance means the stored ones,
  or that the two joined strings collide (`Multipart.CompletedMeansSameDigests`).
- **Asking twice before the first part restarts the upload**, because the temporary file is created by the
  first part (`UploadSession.AskTwice`).
- **A key can be the name of another upload's temporary file** (`UploadServer.TmpCanBeKey`). An operation on a key
  changes another upload exactly if that one is finished and its file, the key's temporary file, has changed, or
  its temporary file is under the key and has changed (`UploadServer.ChangedIff`). Each operation says when that
  is: `UploadPart`, `DestroyUploadByToken`, `Restart`, `InitMultipartUpload` and `CompleteUpload`. The methods of
  `UploadSession` named "Spoils" do it, for every key and every file longer than a chunk.
- **A waiting request whose context expires can waste the wake-up it was given**, and another request then
  sleeps beside a free slot (`Throttle.ExpiredWakeupIsLost`). The wake-up invariant holds over a run exactly
  when no step does that (`Throttle.RunNoLostWakeupIff`).
- **A sink that takes all it is given and still reports an error can hide how the input ended.** WriteTo leaves
  the error unrecorded exactly when the sink failed on a write that took all of the buffer that brings it
  (`AsyncReader.Reader.WriteTo`), so a sink that fails only on short writes never does. With a sink that always
  fails so, on any input, all of it is written and the next call says "stream abandoned"
  (`AsyncReader.FailingSinkHidesEnd`). Over whole runs the error is lost exactly when the buffer received last
  was released before the error was recorded from it (`ReadAheadRuns.ErrorReportedIff`).
- **The walk to the nearest snapshots goes wrong on paths that are not cleaned.** With snapshots of "/a" only,
  "/a/b/" is answered with the relative path "b/b" (`Ancestor.SeparatorMisleads`). The directory found, joined with
  the relative path, is the path asked for, up to cleaning, exactly if it is that path itself, or the path does not
  end in a separator, or its last element is ".", or it is the root (`Ancestor.AnswerJoinsBackIff`). With snapshots
  of "/a" and of "/a/c", those of "/a" are found for "/a/b/../c" (`Ancestor.CleanedPathIsSkipped`). Every ancestor is
  tried, but the cleaned path itself exactly if the path was given so, or ends in a separator, or its last element
  adds no name (`Ancestor.AncestorsAreVisited`); all that is tried is an ancestor or the path, unless the last element
  is a ".." that takes a name away (`Ancestor.StraysIff`). The path and its cleaned form find the same, whatever
  there is, exactly if it is cleaned, ends in a separator, or has a last element that does nothing
  (`Ancestor.SameFoundIff`). Whether `snapshot.ParseSourceInfo` cleans what a caller gives it is not part of this model.
- **Progress gathered between a snapshot and its reset is never reported** (`Progress.GatherIsLost`); all of it
  is reported exactly when there was none (`Progress.ReportedIff`).
- **The common directory of relative paths can be a piece of a component** (`CommonPrefix.RelativeFails`); the
  result is a directory of all the paths exactly when they share a component (`CommonPrefix.DirectoryIff`).
- **A job can be stranded.** A worker that quits between a job taking its channel and sending on it leaves the job
  waiting for ever, beside other workers (`Queue.JobIsStranded`, `Queue.StrandedForGood`). A carried job can go on
  exactly while its worker has not quit (`Queue.CarriedGoesOn`); while none is told to, all jobs get done
  (`Queue.RunsEnd`, `Queue.AllJobsDone`).
- **Returning a buffer the pool did not hand out, or returning it twice, breaks the pool's counters**, and
  nothing else does (`BufferPool.PutKeepsInvIff`).
- **An aged flush does not free the buffers that were idle.** It frees as many (`BufferPool.FlushAgedCounts`), but
  those cached last; these are the idle ones exactly when none or all of the cache was idle
  (`BufferPool.FlushAgedFreesLast`, with a run in which a buffer just used is freed and the idle one kept,
  `BufferPool.FreesUsedKeepsIdle`).
- **The chunk hashers overflow near the end of the 64-bit range.** The sequential loop stops after the last chunk
  exactly when the size rounded up to whole chunks is a 64-bit number; the concurrent one panics exactly when the
  size plus the chunk size less one is not (`ChunkHash.LoopTest`, `ChunkHash.CountIff`, `ChunkHash.Overruns`).

## Model

| member | source | states |
|---|---|---|
| BufferPool.MinBounds | pkg/pool/pool.go:150-155 | the history minimum is a member of the history and a bound on all of it |
| BufferPool.GetKeepsInv | pkg/pool/pool.go:158-187 | Get hands out an array no client holds and the cache no longer has, of exactly the pool's size, and keeps the invariant |
| BufferPool.PutKeepsInvIff | pkg/pool/pool.go:202-217 | Put keeps the invariant if and only if the client holds what it returns |
| BufferPool.TouchKeepsAged | pkg/pool/pool.go:150-155 | a Get or Put leaves every slot below the interval's least fill untouched, so minFill stays the exact minimum |
| BufferPool.FlushAgedCounts | pkg/pool/pool.go:104-114 | flushAged frees exactly as many buffers as the interval's least fill, never indexes an empty cache, leaves the lowest slots as they have been all interval, and leaves a flush pending if and only if something is cached |
| BufferPool.FlushAgedFreesLast | pkg/pool/pool.go:16-20 | the buffers freed are the last ones cached; they are the idle ones if and only if none or all of the cache was idle |
| BufferPool.FreesUsedKeepsIdle | pkg/pool/pool.go:90-95 | a run in which the buffer in use a moment ago is freed and the idle one kept |
| BufferPool.TwoQuietFlushesEmpty | pkg/pool/pool.go:104-114 | two aged flushes without traffic between them empty the cache and leave alloced at the number of buffers in use |
| BufferPool.StepKeepsInv | pkg/pool/pool.go:88-217 | every critical section, and a failed allocation in Get's loop, keeps counters, bounds, distinctness, whole buffers and minFill right |
| BufferPool.RunKeepsInv | pkg/pool/pool.go:88-217 | in every run in which clients return each buffer once, alloced = cached + inUse, cached is at most poolSize, all buffers are distinct and whole, at every unlock |
| BufferPool.GetReuses | pkg/pool/pool.go:158-187 | in every run a Get takes the last buffer cached, and allocates one nobody has held before if and only if none is cached |
| BufferPool.PutCachesIff | pkg/pool/pool.go:202-217 | in every run a Put caches the whole buffer if there is room, else frees it, and leaves a flush pending |
| BufferPool.LastReturnedFirstReused | pkg/pool/pool.go:74-84 | through any Gets, Puts and flushes, a buffer returned while there was room comes back when the fill first falls to what it was before |
| BufferPool.Pool.FlushN | pkg/pool/pool.go:90-95 | the flush loop frees the n buffers cached last and restarts the history |
| BufferPool.Pool.Flush | pkg/pool/pool.go:98-102 | the cache is empty afterwards and the counters agree |
| BufferPool.Pool.FlushAged | pkg/pool/pool.go:105-114 | as many buffers as the interval's least fill go, those cached last, and a flush is pending if and only if something is left |
| BufferPool.Pool.TryGet | pkg/pool/pool.go:162-187 | one pass of Get's loop: takes the last cached buffer, or a new one if none is cached; a refused allocation changes nothing |
| BufferPool.Pool.Get | pkg/pool/pool.go:158-187 | through any number of refused allocations with other clients at work in between, the caller ends with a whole buffer nobody else holds |
| BufferPool.Pool.Put | pkg/pool/pool.go:202-217 | panics exactly on a wrong capacity, leaving the pool as it was; otherwise caches the whole buffer if there is room and frees it if not, and stays valid if and only if the buffer was out |
| ReadAhead.SizeDoubles | pkg/asyncreader/asyncreader.go:88-91 | each size of the soft start but the full one is followed by its double |
| ReadAheadRuns.KthBufferTaken | pkg/asyncreader/asyncreader.go:84-91 | in every run the k-th buffer taken, counting from 0, is min(4096 * 2^k, 1048576) bytes long, a full one from the ninth on |
| ReadAheadRuns.KthBufferRead | pkg/asyncreader/asyncreader.go:353-360 | in every run the k-th buffer read holds the input from where the ones before it end, as much as fits, and brings the error if and only if the input ends inside it, or at its end and the wrapped reader says so at once |
| ReadAhead.BeginsAt | pkg/asyncreader/asyncreader.go:88-91 | in closed form, where in the input the k-th buffer begins |
| ReadAheadRuns.CurrentIsKth | pkg/asyncreader/asyncreader.go:134-147 | in every run the consumer's buffer is the one after those that were put back |
| ReadAheadRuns.UsedUpAt | pkg/asyncreader/asyncreader.go:334-344 | a used-up buffer ends where the next begins, or with the input |
| ReadAhead.StepKeepsInv | pkg/asyncreader/asyncreader.go:79-320 | every step of goroutine, consumer and other pool users keeps tokens, ownership, the chain of buffers, the position and the error right |
| ReadAheadRuns.RunKeepsInv | pkg/asyncreader/asyncreader.go:64-320 | so does every interleaving, from the initial state on |
| ReadAheadRuns.NothingBlocks | pkg/asyncreader/asyncreader.go:93-93 | no send on ready or token ever finds its channel full, and Put never panics on what the reader returns |
| ReadAheadRuns.ProducerStuckIff | pkg/asyncreader/asyncreader.go:82-101 | the goroutine is unable to step if and only if it is gone, or is out of tokens with exit open |
| ReadAheadRuns.WaitsEnd | pkg/asyncreader/asyncreader.go:134-134 | a consumer waiting on ready, or for exited once exit is closed, always has an enabled goroutine step or a closed channel |
| ReadAheadRuns.FuelBurns | pkg/asyncreader/asyncreader.go:84-100 | every goroutine step burns fuel only a returned token adds, so the waits end after finitely many steps |
| ReadAheadRuns.NoTokenLost | pkg/asyncreader/asyncreader.go:74-87 | at every point of every run before Abandon, tokens in the channel, with the goroutine, for queued buffers, for the current one and owed by SkipBytes add up to buffers |
| ReadAheadRuns.HeldApartFromCache | pkg/asyncreader/asyncreader.go:109-124 | every slice of the reader is in one place only and none is in the pool's cache |
| ReadAheadRuns.PutOnce | pkg/asyncreader/asyncreader.go:109-112 | a returned buffer leaves the reader's hands, so it is returned once |
| ReadAhead.OthersLeaveOurs | pkg/asyncreader/asyncreader.go:104-124 | other users of the shared pool neither take nor return the reader's buffers |
| ReadAheadRuns.AbandonReturnsAll | pkg/asyncreader/asyncreader.go:307-320 | when the closed channel has been drained every buffer ever taken has been put back |
| ReadAhead.TakeGivesInput | pkg/asyncreader/asyncreader.go:161-162 | the bytes handed over are the input at the consumer's position |
| ReadAheadRuns.LastBuffer | pkg/asyncreader/asyncreader.go:92-96 | a buffer with the error is the last one and ends the input |
| ReadAheadRuns.ErrorSticks | pkg/asyncreader/asyncreader.go:165-169 | a recorded error is the input's, every byte before it has been passed, and nothing changes it or is handed over afterwards |
| ReadAheadRuns.RunTold | pkg/asyncreader/asyncreader.go:127-205 | over every run, the actions alone tell whether the error is recorded and whether it was missed |
| ReadAheadRuns.ErrorReportedIff | pkg/asyncreader/asyncreader.go:134-142 | in a run nobody stopped, on a drained, closed channel, the error is there if and only if the buffer received last was not released before the error was recorded from it |
| ReadAheadRuns.AheadBound | pkg/asyncreader/asyncreader.go:232-235 | what has been sent lies ahead of the consumer, at most a full buffer for each one queued and the current one |
| ReadAheadRuns.DeliveredIsPrefix | pkg/asyncreader/asyncreader.go:79-207 | in every interleaving without a skip the bytes delivered are a prefix of the input, and all of it once the error is recorded |
| ReadAheadRuns.ErrorIsFinal | pkg/asyncreader/asyncreader.go:26-30 | from any later point of a run the recorded error and the delivered bytes are the same |
| ReadAheadRuns.EnvironmentRelies | pkg/asyncreader/asyncreader.go:82-101 | what any step of the goroutine, of StopBuffering or of another pool user leaves to the consumer |
| AsyncReader.Reader.constructor | pkg/asyncreader/asyncreader.go:64-77 | the token loop ends in the initial state of the protocol |
| AsyncReader.Reader.Select | pkg/asyncreader/asyncreader.go:85-98 | the select takes a token or leaves, as the protocol allows |
| AsyncReader.Reader.TakeBuffer | pkg/asyncreader/asyncreader.go:87-91 | getBuffer with the soft start's shortening: a prefix of the current size, which then doubles, until it is a full buffer |
| AsyncReader.Reader.TakeTurn | pkg/asyncreader/asyncreader.go:84-100 | whichever part of the loop is next, it is an enabled goroutine step |
| AsyncReader.Reader.EnvironmentStep | pkg/asyncreader/asyncreader.go:82-101 | a step of the goroutine, a concurrent StopBuffering or another pool user leaves the consumer's own state alone and only adds to ready |
| AsyncReader.Reader.AwaitReady | pkg/asyncreader/asyncreader.go:134-134 | the receive ends, with a buffer or a closed channel |
| AsyncReader.Reader.Fill | pkg/asyncreader/asyncreader.go:127-147 | gives a buffer with bytes or with the error; fails only on a drained, closed channel, with the recorded error or "stream abandoned" |
| AsyncReader.Reader.Read | pkg/asyncreader/asyncreader.go:150-172 | the caller gets the input from the reader's position on, as much as fits unless a buffer of the soft start, or the input, ends there; the rest of its slice is untouched; the error comes only after the last byte and then on every call |
| AsyncReader.Reader.WriteChunk | pkg/asyncreader/asyncreader.go:190-195 | one write: the sink gets the input at the position, and the buffer is used up if and only if the sink took all of it |
| AsyncReader.Reader.WriteTo | pkg/asyncreader/asyncreader.go:177-207 | the sink gets the input from the position on; success means all of it; it ends with the sink's error if and only if the last write failed, and the input's error is then left unrecorded if and only if that write took all of the buffer that brings it |
| AsyncReader.FailingSinkHidesEnd | pkg/asyncreader/asyncreader.go:190-195 | on any input, with a sink that takes every byte and always fails and nobody who stops the reader, the whole input is written and the next call says "stream abandoned" |
| AsyncReader.Reader.TrySkip | pkg/asyncreader/asyncreader.go:219-281 | a backward skip succeeds exactly when it stays in the current buffer; an onward one does if something sent lies ahead, skip reaches no further than what was sent, and it is below the early limit; success moves the position by exactly skip and owes no token; a recorded error refuses the skip and stays |
| AsyncReader.Reader.SkipOnward | pkg/asyncreader/asyncreader.go:239-280 | the skip loop over any number of buffers, with its tokens handed back |
| AsyncReader.Reader.SkipBytes | pkg/asyncreader/asyncreader.go:212-281 | true: the next byte is the input at the old position plus skip and all tokens are back; false: the reader is abandoned and every buffer returned; a backward skip succeeds if and only if no error is recorded and it goes no further back than where the current buffer of the soft start begins; a recorded error refuses the skip and stays; the error is missed exactly by a short onward skip from a last buffer whose error was overlooked |
| AsyncReader.Reader.StopBuffering | pkg/asyncreader/asyncreader.go:291-301 | exit is closed and the wait for exited ends, whatever else happens |
| AsyncReader.Reader.Abandon | pkg/asyncreader/asyncreader.go:307-320 | nothing is left in cur or ready and every buffer taken has been put back |
| AsyncReader.Reader.DrainReady | pkg/asyncreader/asyncreader.go:317-319 | ranging over ready ends, with the channel closed and empty |
| ReadFill.Fill | pkg/asyncreader/asyncreader.go:384-392 | however short the reads, the buffer holds as much input as fits, followed by what it held, with the error exactly when the reader reported it |
| ReadFill.Source.Read | pkg/asyncreader/asyncreader.go:387-387 | a reader that may give less than asked and reports its error with or after the last byte |
| Text.UnhexHex | internal/storage/upload.go:147-147 | decoding the hex text of any bytes gives them back |
| Text.HexInjective | pkg/cipher/md5.go:117-117 | different byte strings have different hex text |
| Text.TagInjective | pkg/cipher/md5.go:123-123 | the digest and the number of parts can both be read back from a composite tag |
| Text.HexSpelled | pkg/cipher/md5.go:117-117 | three bytes and their hex text, in lower case |
| Text.DecSpelled | pkg/cipher/md5.go:123-123 | numbers and their decimal text |
| Sorting.SortSpec | internal/storage/upload.go:142-142 | the sorted list is an ordered rearrangement |
| Sorting.SortStable | web/routers/uploader.go:212-212 | entries with the same index keep their order |
| Sorting.SortOfPermutation | internal/storage/upload.go:142-142 | sorting forgets the order distinct entries arrived in |
| ChunkHash.Partition | pkg/cipher/md5.go:103-110 | the chunks lie end to end from the first byte to the last, none empty or too long |
| ChunkHash.Starts | pkg/cipher/md5.go:103-103 | the number of chunks is ceil(totalSize/chunkSize): chunk i starts inside the file if and only if i is below it |
| ChunkHash.LoopTest | pkg/cipher/md5.go:103-103 | in 64-bit arithmetic the loop test passes for every chunk, and fails after the last one if and only if the size rounded up to whole chunks fits |
| ChunkHash.SectionIsChunk | pkg/cipher/md5.go:105-110 | whatever overflows, what is read at pass i, cut off at the end of the file, is chunk i |
| ChunkHash.CountIff | pkg/cipher/md5.go:154-154 | the number of chunks is computed right if and only if the size plus the chunk size less one fits; else it is not positive |
| ChunkHash.Overruns | pkg/cipher/md5.go:103-103 | sizes for which the loop does not stop after the last chunk |
| ChunkHash.TagOfPieces | pkg/cipher/md5.go:87-124 | however a file is cut into pieces of the chunk size and a last one, its digest is the hex of the hash of the pieces' digests, a dash and their number, or of the bytes if there is one piece |
| ChunkHash.SameTagSameFile | pkg/cipher/md5.go:87-124 | files with the same digest are the same, unless the hash collides on the files, on their joined digests or on two chunks of the same number |
| ChunkHash.MD5ByChunk | pkg/cipher/md5.go:87-124 | for every size and chunk size: reading through limited readers computes the composite digest of the file's chunks, if and only if the loop stops after the last one |
| ChunkHash.SpawnSections | pkg/cipher/md5.go:177-206 | the sections handed to goroutines are the chunks; the loop stops after them if and only if the rounded size fits |
| ChunkHash.MD5ByChunkConcurrent | pkg/cipher/md5.go:138-217 | the same digest for every order in which results arrive, or a panic, exactly when the number of chunks overflows |
| ChunkHash.SameDigest | pkg/cipher/md5.go:87-217 | the two computations agree unless the concurrent one panics |
| Multipart.WrittenCell | web/routers/uploader.go:178-188 | what one seek and write does to every position of the file |
| Multipart.FileLength | web/routers/uploader.go:178-188 | how long the file is after any run of attempts |
| Multipart.LastWriteWins | web/routers/uploader.go:178-203 | after any run at all, each byte is that of the last body to cover it, else what was there, else zero |
| Multipart.RowIsLastAccepted | internal/storage/upload.go:102-120 | after any run, each row is the digest of the last accepted attempt at its index |
| Multipart.FileIff | web/routers/uploader.go:178-203 | for any attempts at all, of any length and with any verdict: the file is f if and only if they reach as far as f and leave its byte at every position |
| Multipart.FullBodiesIff | web/routers/uploader.go:178-203 | with full last bodies, the file is the client's if and only if every last body is its chunk |
| Multipart.ServerTagIsETag | internal/storage/upload.go:141-166 | from a file's rows, in any order of listing, CompletePart computes the chunk hasher's digest of the file |
| Multipart.Reassembled | web/routers/uploader.go:178-203 | the law: any order and number of attempts, on top of any earlier state, with the last attempt at each index an accepted upload of its chunk, gives the file, its rows and its digest |
| Multipart.RejectedOverwrites | web/routers/uploader.go:188-196 | after a complete upload a rejected body, of any length at any index, leaves the digest; it leaves the bytes if and only if it repeats what stands at its place |
| Multipart.CutRetry | web/routers/uploader.go:188-196 | a retry cut short that does no harm and one that does |
| Multipart.AnyOrderCompletes | web/routers/uploader.go:212-229 | with two or more rows any rearrangement of them gives the server's digest |
| Multipart.CompletesIff | internal/storage/upload.go:141-175 | acceptance of two or more stored parts: the same number of parts, decodable, with the same hash of the joined digests, and nothing else |
| Multipart.CompletedMeansSameDigests | internal/storage/upload.go:141-175 | acceptance of a list of 16-byte digests means the stored ones in index order, unless the joined digests of the two lists collide |
| Multipart.RegroupedCompletes | web/routers/uploader.go:213-220 | the same hex text cut up differently is accepted under any hash: that the list holds digests is not checked |
| Multipart.OneRowIff | internal/storage/upload.go:162-163 | one stored part, any list from the client: accepted if and only if it has at most one entry and its decoded bytes hash to the stored digest |
| Multipart.OnePartIff | web/routers/uploader.go:225-227 | a client that lists the one stored part is accepted if and only if its digest is its own digest |
| Multipart.OnePartRefused | internal/storage/upload.go:162-163 | a hash and a body for which it is not |
| UploadServer.TmpInjective | internal/storage/upload.go:53-62 | different keys have different temporary files |
| UploadServer.TmpBeside | internal/storage/upload.go:54-65 | the temporary file stands beside the file, with a dot before its name and .upload after |
| UploadServer.TmpCanBeKey | internal/storage/upload.go:53-62 | but a temporary file's name is itself a possible key, of another upload |
| UploadServer.ChangedIff | internal/storage/upload.go:53-62 | an operation that touches only a key's own rows, its file and its temporary file changes another upload if and only if that one's result was the temporary file, or its temporary file is under the key, and the bytes changed |
| UploadServer.TagOfRows | internal/storage/upload.go:141-166 | the digest expected at completion does not depend on the order of listing |
| UploadServer.Inserted | internal/storage/upload.go:55-63 | a new row keeps tokens unique and every other upload, with its finished file, as it was |
| UploadServer.PartRecorded | internal/storage/upload.go:110-117 | the upsert changes one row of one upload and nothing else |
| UploadServer.DestroyKeepsInv | internal/storage/upload.go:181-195 | destroying an upload keeps tokens unique and every part row with an upload |
| UploadServer.DestroyTouches | internal/storage/upload.go:181-195 | it touches no other upload's rows or parts, and no file but its temporary one |
| UploadServer.KeepsBytesIff | web/routers/uploader.go:178-188 | the temporary file is as it was after a request if and only if it was there and the offset cannot be sought or the body repeats what stands at it |
| UploadServer.SentIsUploaded | web/routers/uploader.go:178-203 | below the wrap-around of the offset, a request is a step of the part-upload model |
| UploadServer.ListRows | internal/storage/upload.go:123-131 | a listing has every row once, in no particular order |
| UploadServer.AppendDigests | internal/storage/upload.go:143-152 | the decode-and-append loop, failing exactly when some digest does not decode |
| UploadServer.Server.InitUpload | internal/storage/upload.go:31-71 | the upload there is goes on, unchanged, if and only if it has these sizes and its temporary file is there while it is running, or its result, of the announced length, once it is finished; a new one is inserted unless its token is taken |
| UploadServer.Server.RecordPart | internal/storage/upload.go:102-120 | one row of the key's upload is set; the others are untouched |
| UploadServer.Server.LoadParts | internal/storage/upload.go:123-131 | all rows of the token, each once |
| UploadServer.Server.CompletePart | internal/storage/upload.go:134-178 | DONE if and only if the digest given is the one of the stored rows, for every order of listing; otherwise nothing changes, and the fault says whether a stored digest did not decode |
| UploadServer.Server.DestroyUploadByToken | internal/storage/upload.go:181-195 | the rows, the temporary file and the upload of the token are gone; another upload is changed if and only if it is finished and its file was that temporary file |
| UploadServer.Server.InitMultipartUpload | web/routers/uploader.go:120-154 | 2001 if and only if there is no upload; 2002, with all rows listed and nothing changed, if and only if there is one with these sizes whose file is there, the temporary one while it is running, the result with every byte once it is finished; 2003 otherwise, and the upload is begun again, with no rows, unless another has the new token; only a restart changes another upload, and exactly when its file or temporary file is one of the two removed |
| UploadServer.Server.Restart | web/routers/uploader.go:124-129 | the stale upload, its temporary file and the file under its key are gone before the new one begins; another upload is changed if and only if its result or its temporary file was one of them |
| UploadServer.Server.UploadPart | web/routers/uploader.go:156-204 | the body lands at its (wrapped) offset whether accepted or not, the row only if accepted; another upload is changed if and only if it is finished, its file is this temporary file, and not this: the file is there, and the offset cannot be sought or the body repeats what stands at it |
| UploadServer.Server.CompleteUpload | web/routers/uploader.go:206-246 | accepted exactly when the two composite digests agree; then the temporary file has the key's name and its bytes; another upload is changed if and only if its result was that file, or its temporary file is under the key and had other bytes |
| UploadSession.SendParts | web/routers/uploader.go:156-204 | any sequence of requests takes the upload through the part-upload model's run; another upload is changed if and only if it is finished, its file is this temporary file, something is sent, and not this: the file is there, and the last body to cover each position, or else what stood there, has its byte |
| UploadSession.UploadWhole | web/routers/uploader.go:156-246 | end to end: a client that sends every chunk in any order with any repetitions gets the chunk hasher's digest, and the file is under its key byte for byte; which other uploads change, exactly |
| UploadSession.AskAfterWhole | web/routers/uploader.go:120-154 | after a whole upload, whatever becomes of the file under the key, the same request gets 2002, with every chunk's digest listed, if and only if the file is there with as many bytes; otherwise 2003 and an upload without rows |
| UploadSession.AskAfterParts | web/routers/uploader.go:120-154 | in the middle of an upload the same request gets 2002 with exactly the rows of the requests so far, if and only if there were any or the temporary file was there before |
| UploadSession.Finish | web/routers/uploader.go:120-246 | a new upload of any file longer than a chunk can be begun and finished |
| UploadSession.PartSpoilsResult | web/routers/uploader.go:178-188 | a part overwrites the finished file of another upload |
| UploadSession.DestroySpoilsResult | internal/storage/upload.go:188-191 | destroying an upload removes the finished file of another |
| UploadSession.RestartSpoilsResult | web/routers/uploader.go:124-129 | so does restarting it |
| UploadSession.CompleteSpoilsResult | web/routers/uploader.go:234-239 | completing an upload takes the finished file of another away |
| UploadSession.RestartSpoilsParts | web/routers/uploader.go:124-129 | restarting an upload removes the bytes of another's parts and leaves their rows |
| UploadSession.CompleteSpoilsParts | web/routers/uploader.go:234-239 | completing an upload puts other bytes in place of another's parts |
| UploadSession.AskTwice | internal/storage/upload.go:37-40 | asking twice before the first part arrives restarts the upload |
| Throttle.CountedStep | internal/backup/default_provider.go:467-514 | the counter is the number of callers admitted and not released |
| Throttle.RisesBelowLimit | internal/backup/default_provider.go:478-501 | admission happens only strictly below the limit, one at a time |
| Throttle.WakeupStepIff | internal/backup/default_provider.go:451-514 | each event keeps "free slots are at most the woken callers while anyone sleeps" if and only if it is not an expired caller wasting the last wake-up |
| Throttle.RunNoLostWakeupIff | internal/backup/default_provider.go:451-514 | the same equivalence over whole runs |
| Throttle.RunNoLostWakeup | internal/backup/default_provider.go:516-563 | while no waiting request expires, no slot stays free with everyone asleep, under barging, signals, renewed waits and changes of the limit |
| Throttle.RunCounted | internal/backup/default_provider.go:467-514 | the counter is right at every point of every run |
| Throttle.NeverAboveLimit | internal/backup/default_provider.go:478-501 | under a fixed non-negative limit never more callers hold a slot than the limit |
| Throttle.FixedLimitHolds | internal/backup/default_provider.go:478-501 | from any point on, with the limit fixed, the counter is within it or has only fallen |
| Throttle.LoweredLimitDrains | internal/backup/default_provider.go:451-457 | after the limit is lowered nobody is admitted until the counter is below it |
| Throttle.LimitIsLast | internal/backup/default_provider.go:451-465 | in every run the limit in force is the one set last, or the first one if none was set |
| Throttle.CallDecided | internal/backup/default_provider.go:467-504 | in every run a caller is admitted if and only if its job is not taken, its context is not done and fewer callers hold a slot than the limit set last; it sleeps if and only if only the slot is missing and its record can be written; nobody else moves |
| Throttle.AdmittedBelowLast | internal/backup/default_provider.go:478-501 | once the limit is set to n, until it is set again, whoever is admitted finds fewer than n slots held |
| Throttle.SleepersWoken | internal/backup/default_provider.go:451-514 | a slot given back wakes one sleeper if there is one; a change of the limit wakes all |
| Throttle.WokenFillSlots | internal/backup/default_provider.go:478-501 | letting the woken callers run, in any order, leaves no free slot or no sleeper |
| Throttle.ExpiredWakeupIsLost | internal/backup/default_provider.go:490-498 | a run in which an expired caller leaves another asleep beside a free slot |
| Throttle.Gate.Enter | internal/backup/default_provider.go:467-504 | a call up to its first wait or its decision: a taken job is rejected whatever the limit; else it is admitted, waits or is rejected by the limit, its context and its record |
| Throttle.Gate.Resume | internal/backup/default_provider.go:486-504 | a woken caller tests again; only then does it report that it waited |
| Throttle.Gate.Unlock | internal/backup/default_provider.go:506-514 | the slot is given back and any one sleeper woken |
| Throttle.Gate.SetMax | internal/backup/default_provider.go:451-457 | the limit is the one given and every sleeper is woken |
| Throttle.EnterAfterLimit | internal/backup/default_provider.go:451-504 | the first request after the limit is set is admitted if and only if its job is not taken and fewer hold a slot than the new limit, and waits if and only if only the slot is missing |
| Queue.StepKeepsInv | pkg/queue/queue.go:61-95 | every step keeps each worker's channel in at most one place, running jobs with their workers and each job started at most once |
| Queue.RunKeepsInv | pkg/queue/queue.go:61-177 | so does every run; with CarriedIff, no job is lost |
| Queue.CarriedIff | pkg/queue/queue.go:160-169 | in every run a job is carried by a goroutine if and only if it was submitted and not handed over, and has been started if and only if it was handed over |
| Queue.CarriedGoesOn | pkg/queue/queue.go:165-169 | a carried job without a channel can take one if and only if the pool has any; one with a channel can be handed over if and only if its worker has not quit |
| Queue.PoolIsQueue | pkg/queue/queue.go:165-169 | in every run the pool holds what was offered and not taken, in order, and the n-th job to take a channel took the n-th one offered |
| Queue.HandedToOfferer | pkg/queue/queue.go:165-169 | the n-th job to take a channel is handed to the n-th worker to offer itself and runs there until that worker's action returns |
| Queue.ReturnedThen | pkg/queue/queue.go:74-78 | a started job has returned when its worker's action next returns |
| Queue.RunsEnd | pkg/queue/queue.go:61-177 | no run is longer than three steps for each worker and six for each job |
| Queue.RestMeansDone | pkg/queue/queue.go:61-177 | when nothing more can happen, every submitted job is done but for those that hold the channel of a worker that has quit and those for which no worker is left |
| Queue.AllJobsDone | pkg/queue/queue.go:61-177 | if no worker is told to quit and there is one, every submitted job has been done when nothing more can happen |
| Queue.StrandedForGood | pkg/queue/queue.go:84-91 | a job that holds the channel of a worker that has quit is never started |
| Queue.JobIsStranded | pkg/queue/queue.go:84-91 | a run in which that happens, with another worker ready |
| Queue.OfferNeverBlocks | pkg/queue/queue.go:70-70 | a worker offering its channel finds room in the pool |
| Queue.OfferedAfterReturn | pkg/queue/queue.go:74-81 | in every run, between a job being handed to a worker and that worker offering itself again, the action of the job has returned |
| Queue.HandedToIdle | pkg/queue/queue.go:165-169 | in every run, a job is handed only to a worker with nothing running |
| Queue.OneHolder | pkg/queue/queue.go:165-169 | at every point of every run, no two goroutines hold the same channel, and none one that is in the pool |
| Queue.RunningBounded | pkg/queue/queue.go:139-141 | at every point of every run, the actions started and not returned are at most as many as the workers |
| Queue.StartedAtMostOnce | pkg/queue/queue.go:160-177 | over a whole run a job is handed to a worker at most once |
| Queue.Dispatcher.constructor | pkg/queue/queue.go:133-148 | a negative count means the default; nothing is in the pool |
| Queue.Dispatcher.Start | pkg/queue/queue.go:151-158 | the loop fills in the workers and sets each going |
| Queue.Dispatcher.HandOver | pkg/queue/queue.go:165-169 | the send meets the worker's receive and its action starts |
| Queue.Dispatcher.OfferChannel | pkg/queue/queue.go:68-70 | the worker's channel enters the pool, without blocking |
| DownloadCache.ConservedStep | internal/download/cachemgr.go:141-224 | every step keeps, for each key, received = cached + handed off + recorded, and recorded = billed + being billed |
| DownloadCache.StepKeepsInv | internal/download/cachemgr.go:141-224 | and the wait group at the recorders not yet published and every cached size within the limit |
| DownloadCache.RunKeepsInv | internal/download/cachemgr.go:141-224 | so does every run |
| DownloadCache.ReceivedIsTaken | internal/download/cachemgr.go:153-170 | the history of what was received is what the run's receives add up to |
| DownloadCache.ReceiveHandsOffIff | internal/download/cachemgr.go:153-177 | in every run a receive hands off the recorder of its key, with the whole sum, if and only if what was received for the key since it was last out of the cache exceeds the limit; otherwise all of it is cached |
| DownloadCache.LeavesCacheIff | internal/download/cachemgr.go:172-190 | a cached key leaves the cache at a timeout, at the end of serve and beyond the limit, and at no other moment |
| DownloadCache.PublishHandsOffAll | internal/download/cachemgr.go:179-187 | a timeout or the end of serve hands off every cached recorder, once and with its sum |
| DownloadCache.RecordersOnce | internal/download/cachemgr.go:192-218 | in every run each recorder that left the cache is, whole and once, with a goroutine or billed; when serve is done all are billed |
| DownloadCache.PhaseTold | internal/download/cachemgr.go:143-190 | serve serves until it is told to end and signals once |
| DownloadCache.DrainGoesOn | internal/download/cachemgr.go:143-149 | until serve has signalled something is left to do |
| DownloadCache.DrainEnds | internal/download/cachemgr.go:143-149 | and it signals after finitely many steps |
| DownloadCache.DrainBillsEverything | internal/download/cachemgr.go:143-149 | once serve is done, what was billed for each key, and its recorded total, is exactly what was received |
| DownloadCache.Manager.Receive | internal/download/cachemgr.go:153-177 | the old amount plus the size stays cached, and nothing is handed off, if and only if the sum is at most the limit; otherwise it is handed off; one that has left the cache is never changed again |
| DownloadCache.Manager.PublishCache | internal/download/cachemgr.go:179-187 | a timeout or the end of serve empties the cache and hands off every recorder in it once |
| DownloadCache.Manager.CollectBatch | internal/download/cachemgr.go:192-196 | ranging over the map visits every recorder once |
| DownloadCache.Manager.AddToStat | internal/download/cachemgr.go:215-224 | the recorder's size goes into the statistics |
| DownloadCache.Manager.CallHandler | internal/download/cachemgr.go:199-218 | the handler is given that size and the wait group goes down by one |
| DownloadCache.Manager.SignalDone | internal/download/cachemgr.go:143-149 | when the wait group is empty the statistics are all that was received and all that was billed |
| CommonPrefix.SharedAllLongest | pkg/iotools/file.go:492-508 | the shared prefix is a prefix of every list and every common prefix is a prefix of it |
| CommonPrefix.JoinComponents | pkg/iotools/file.go:484-490 | taking a path apart at separators and joining it loses nothing |
| CommonPrefix.BytesAreComponents | pkg/iotools/file.go:492-508 | comparing the bytes of any number of paths compares their components, up to an unfinished one |
| CommonPrefix.Truncate | pkg/iotools/file.go:497-507 | the inner loop yields the longest common prefix |
| CommonPrefix.Cut | pkg/iotools/file.go:510-517 | the last loop cuts at the last separator, if there is one |
| CommonPrefix.FileCommonPrefix | pkg/iotools/file.go:465-520 | the result is the join of the longest common sequence of components, or the shared first bytes if there is none; no path and one path as the source says |
| CommonPrefix.LowestCommonDirectory | pkg/iotools/file.go:464-464 | it is above every path, and everything above every path is above it |
| CommonPrefix.AbsoluteShare | pkg/iotools/file.go:484-490 | absolute paths always share the root |
| CommonPrefix.NothingShared | pkg/iotools/file.go:510-519 | without a shared component the result has no separator and is no directory of the paths |
| CommonPrefix.DirectoryIff | pkg/iotools/file.go:464-520 | the result is a directory of all the paths if and only if they share a component |
| CommonPrefix.RelativeFails | pkg/iotools/file.go:510-519 | two relative paths for which it is not |
| Progress.BalancedStep | internal/backup/stream.go:110-153 | every step of gatherer and handler keeps reported + lost + waiting at what was gathered |
| Progress.RunBalanced | internal/backup/stream.go:216-249 | the same for every interleaving, with the lost bytes told from the run's actions alone |
| Progress.ReportedWithinGathered | internal/backup/stream.go:242-242 | what one upload adds to the backup bytes never exceeds what it gathered |
| Progress.ReportedIff | internal/backup/stream.go:216-249 | everything is reported or waiting if and only if nothing was gathered between a snapshot and its reset |
| Progress.LatestTold | internal/backup/stream.go:110-127 | in every run there is new data if and only if something was gathered since the last reset, and the totals are those gathered last |
| Progress.ReportsSnapshot | internal/backup/stream.go:216-249 | what is added to the backup bytes is what was waiting at the snapshot |
| Progress.GatherIsLost | internal/backup/stream.go:246-246 | a run that loses a byte |
| Progress.Gatherer.Gather | internal/backup/stream.go:120-127 | bytes add up, totals are replaced, and data is marked as new |
| Progress.Gatherer.Reset | internal/backup/stream.go:110-118 | everything gathered so far is gone and the acknowledgement time set |
| Progress.Gatherer.ProgressHandle | internal/backup/stream.go:216-249 | one pass of the handler with metrics arriving in each of its gaps: it reports what there was at its start and no more |
| Ancestor.CleanShow | internal/backup/snapshot.go:247-247 | cleaning a cleaned path changes nothing |
| Ancestor.CleanIsNormal | internal/backup/snapshot.go:247-247 | every path cleans to a cleaned path |
| Ancestor.DirBase | internal/backup/snapshot.go:239-248 | of a cleaned path Dir drops the last name and Base is that name; it is its own parent if and only if it has no name |
| Ancestor.DirOf | internal/backup/snapshot.go:239-247 | of any path at all: where Dir of it stands to the path cleaned, by what the last element is |
| Ancestor.CleanShrinks | internal/backup/snapshot.go:247-247 | cleaning never lengthens a path, and shortens one that ends in a separator |
| Ancestor.DirShrinks | internal/backup/snapshot.go:247-251 | of any path at all, Dir is the path itself, shorter, or the dot of a single letter |
| Ancestor.FindSnapshotsForSource | internal/backup/snapshot.go:228-256 | the walk ends on every path, and answers with the list or failure of the path as given, or else with the first one going up from Dir of it and the names below |
| Ancestor.CleanedWalk | internal/backup/snapshot.go:228-256 | on a cleaned path that is the first list or failure on the way up from the path itself, with the names below |
| Ancestor.JoinsBackIff | internal/backup/snapshot.go:238-242 | of any path, a directory of the walk joined with what is left is the path, up to cleaning, if and only if the path does not end in a separator or its last element is "." or it is the root |
| Ancestor.AnswerJoinsBackIff | internal/backup/snapshot.go:228-256 | of any path and any snapshots, the directory whose snapshots are answered, joined with the relative path, is the path, up to cleaning, if and only if it is the path itself or that condition holds |
| Ancestor.JoinsBack | internal/backup/snapshot.go:238-242 | every directory above a cleaned path, joined with the names below it, is the path |
| Ancestor.AncestorsAreVisited | internal/backup/snapshot.go:229-254 | of any path, every cleaned directory that leads to it through ordinary names is tried, and the path itself, cleaned, if and only if it was given so or its last element adds no name |
| Ancestor.StraysIff | internal/backup/snapshot.go:229-254 | what is tried on the way up is an ancestor of the path or the path itself, cleaned, if and only if it is not what a last ".." leaves |
| Ancestor.NothingNearer | internal/backup/snapshot.go:228-254 | of any path with nothing listed under it as given, what is answered stands no higher than any ancestor with snapshots, nor than the path itself, cleaned, if that is tried |
| Ancestor.SameFoundIff | internal/backup/snapshot.go:228-256 | the walk finds the same for a path as for its cleaned form, whatever there is, if and only if the path is cleaned, ends in a separator, or has a last element that does nothing |
| Ancestor.SeparatorMisleads | internal/backup/snapshot.go:238-242 | a path that ends in a separator, for which the relative path has its last name twice |
| Ancestor.CleanedPathIsSkipped | internal/backup/snapshot.go:247-254 | a path for which the snapshots of its cleaned form are passed over |

## Left out

- HTTP handlers, tokens, configuration, logging, metrics and the command line: plumbing.
- kopia, minio, gorm, grpc and file locks: foreign code; of the upload tables only their unique keys remain.
- MD5 itself, and read or write errors during hashing, part upload and renaming.
- Real time: tickers, timers and rate limits are steps that may happen at any moment, and nothing is said about how soon.
- `AsyncReader.Close` and the argument checks of `New`: Close abandons and then closes the input once, which involves none of the shared state; New rejects arguments before there is a reader. Two calls of `StopBuffering` at the same moment, which may both close `exit`, are not modelled: the test and the close are one step.
- ReadAhead.TakeGivesInput: the bytes of a buffer are a value, so that nobody writes to a buffer on its way to the consumer rests on the ownership theorems, not on memory.
- AsyncReader.Reader.SkipBytes: reads `err`, `cur` and `len(ready)` before it takes the mutex, as the source does; a second consumer calling at the same time is not modelled.
- AsyncReader.Reader.Interfere: its body chooses among goroutine steps, a concurrent close of `exit` and two uses of the pool; callers know only its contract, which `ReadAheadRuns.EnvironmentRelies` and `ReadAheadRuns.RelyComposes` prove of all environment steps.
- ChunkHash.MD5ByChunk: what the loop does once it has not stopped after the last chunk is not modelled, nor a chunk size that is not positive, nor a reader that is longer or shorter than the size given.
- AsyncReader.Reader.TrySkip: whether an onward skip beyond what had been sent at the call succeeds depends on what the goroutine sends meanwhile; it can succeed up to the end of the input and no further.
- DownloadCache.StepKeepsInv: sizes are unbounded integers; the conversion to `int` and overflow are not modelled.
- Progress.RunBalanced: byte counts are unbounded, and percentages, speed and remaining time, which are only logged, are not modelled. What waits when the upload ends is not reported by the source either.
- UploadServer.Server.UploadPart: the part is written, compared and recorded without another request in between; a key destroyed and begun again meanwhile is not modelled.
- UploadServer.TmpInjective: names are compared as written for absolute, cleaned keys; links and case-insensitive file systems are not modelled.
- `DestroyUploadByKey`, `Clean` and `ScavengeUpload`: deletions by pattern, state and age. Every deletion of a directory calls `DestroyUploadByKey` (web/routers/file.go:552-558), which removes no temporary file itself but gives their names to its caller, and whose `LIKE 'key%'` also takes keys that merely begin with the same bytes, "/a/bc" with "/a/b"; an administrator's request calls `Clean` (web/routers/admin.go:35), which keeps the files. How they interleave with an upload is not modelled.
- `Dispatcher.Close`: only its effect on a worker, which quits, is modelled. `Enqueue` sends on a channel that nothing receives from, and the rate limit of `SubmitJob` is plumbing.
- `RepoStat`'s pending counters, the job and transfer contexts: the attractive claims do not hold there.
- `makeRecycler`, the priority queue, the sampler, the retry helper, enumeration tables, pagination, zip creation and ownership changes.
- `findPreviousSnapshotManifest` and the rest of the snapshot code: foreign manifests compared by time.

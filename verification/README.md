# Verified models of gitlab-workhorse

gitlab-workhorse is a reverse proxy that takes uploads, archive downloads, long
polling and web terminals off the Rails application. This project models the parts
of it that hold real state: concurrent protocols, chunking, buffering, stacked
response writers, path and framing algebra. The models are written in Dafny 4.11
and their properties are proved; `dafny verify dfyconfig.toml` checks them all.

## How the models are built

Code that changes state in place is a class whose methods are proved against
functions on values (`ensures Contents() == F(old(Contents()))`), loops included.
Code that runs concurrently is a system of steps: a `State`, the `Action`s of its
goroutines and of the outside world, a partial function `Step`, and `Run` over any
sequence of actions. A critical section, a channel operation or a system call is one
action; everything else may come between. Theorems are about every reachable state
or every run, for any number of requests, chunks, parts or stoppers.

| file | component |
|---|---|
| `UploadPipeline`, `UploadSafety`, `UploadErrors`, `UploadProgress`, `UploadRuns` | a multipart save: producer, uploading goroutine, the PUT of each part step by step, cleanup goroutine, deadline, caller's context, remote store |
| `ObjectUpload` | the upload of one object in one PUT with its running MD5, which is also the PUT of a part |
| `Multipart`, `FileHandler`, `PartArithmetic` | the multipart save without concurrency, in place, and the arithmetic of parts |
| `ObjectStore` | the store's state machine, multipart ETags, ETag headers |
| `AdmissionQueue` | the bounded request queue made of two channels |
| `KeyWatcher`, `WatchKey` | the Redis key watcher: registry under a mutex, and calls of WatchKey |
| `WriteAfterReader` | the writer that spills to a tempfile until the reader is drained |
| `ResponseChain`, `ResponseHead`, `ResponseWriters` | SendData over SendFile over Block, with ErrorPages outside on some routes and the server's own end of the response, as values and as classes |
| `PathClean`, `UrlPrefix` | `path.Clean` and `path.Dir` on component stacks, URI cleaning, prefixes, static files |
| `ZipMetadata` | entry list, framing and order of the zip metadata |
| `ArchiveCache`, `ArchiveRequests`, `ArchiveOutcomes` | the git archive cache on a file system of names and inodes, and what becomes of one request |
| `Base64`, `Terminal`, `StopChannel` | terminal subprotocols, the copy loop, the stop channel |
| `PktLine` | the pkt-line splitter and scanDeepen |
| `Bytes`, `Wrappers` | byte strings, options and results |

## Where code and documentation differ, or a promise needs a condition

- A save that fails on its own side ends the stream like any other, because the writers
  are closed in a defer (`internal/filestore/file_handler.go:90-96`): after a declared
  size that turns out wrong, a read error or a local write error, what went through the
  pipe is completed in the store all the same (`UploadSafety.FailedSaveIsStored`,
  `UploadRuns.ReadErrorIsStored`, `FileHandler.FileHandler.SaveFileFromReader`).
- The PUT of an object, and so of a part, compares the store's ETag with the MD5 of what
  has been hashed so far. A store that accepts a body before all of it has been carried
  is believed, and the object is cut short: `ObjectUpload.EarlyAnswerCutsShort`,
  `UploadRuns.EarlyPartCutsShort`. The exact condition is `ObjectUpload.WholeObjectIff`
  for one PUT and the last clause of `UploadSafety.SaveEndToEnd` for a multipart save. A
  store that answers truthfully before the last chunk is hashed makes the ETags differ
  for a complete object: `ObjectUpload.CompleteObjectCanMismatch`, with the exact
  condition in `ObjectUpload.TruthfulAnswerPassesIff`.
- Cleanup reads the upload's error as soon as the upload context is done. When the
  deadline passes first, a failed upload can be deleted but never aborted:
  `UploadRuns.DeadlineRaceSkipsTheAbort` is such a run,
  `UploadSafety.CleanupChoosesExactly` gives the exact condition.
- An abort does not remove an object whose completion was recorded but not acknowledged
  (`UploadRuns.AbortLeavesTheObject`; exactly when something is left behind is
  `UploadSafety.NothingLeftBehind`). The test stub does not show this, because it
  ignores which of the two requests it gets.
- A save whose caller's context ends early can claim success without a stored
  object (`UploadRuns.CancelledSaveCanClaimSuccess`); the requirement documented at
  `internal/filestore/file_handler.go:83-84` is needed. Exactly when a successful Close
  finds an object stored is `UploadSafety.SuccessIsStoredIff`; a caller who leaves after
  the uploading goroutine has ended does no harm (`UploadSafety.SaveEndToEnd`).
- The queue's waiting time is taken from the oldest stamp in the channel. It is the
  request's own exactly under the condition of `AdmissionQueue.OwnStampIff`;
  `AdmissionQueue.OvertakerTakesTheOldestStamp` is a run in which it is not.
- Of the coupled writer's faults those of a direct write, and of a Flush that the
  user called, are not remembered, so a later write can leave a hole
  (`WriteAfterReader.PrefixIffNothingLostSilently`).
- An injecter or a file that writes nothing leaves the response head to the end, that is
  to the flush of ErrorPages, or to net/http on the routes without error pages. By then a
  handler may have set the Send-Data header again, or the internal content type. Sending
  an empty blob (`internal/git/blob.go`) is such a case: it only sets Content-Length. The
  exact conditions, for both kinds of route, are `ResponseChain.KeyIsGoneIff` and
  `ResponseHead.InternalTypeIff`.
- SendFile deletes X-Sendfile only when it answers: a response with another status than 200,
  or one that Block replaces, goes out with the header and the path in it
  (`ResponseHead.SendFileHeaderIs`). For the others it is gone exactly when no script is
  silent (`ResponseHead.SendFileHeaderIsGoneIff`).
- `ServeExisting`'s prefix test is passed by every request only when the document root
  is empty, or clean and not "." (`UrlPrefix.PrefixTestAlwaysPasses`).
- A notification whose key holds an equals sign is misread
  (`KeyWatcher.ParseUndoesFormat`), and zip metadata records of 2^32 bytes or more
  cannot be read back (`ZipMetadata.FramingCanBeUndone`).
- The archive cache's comment assumes tempfile names that are unique over time. Exclusive
  creation is enough as long as nobody else deletes tempfiles
  (`ArchiveRequests.ExclusiveCreationSuffices`). When somebody does, a name can be drawn
  again; that does harm exactly when a request that may still link it goes by it
  (`ArchiveRequests.ClashIsHarmfulIff`, with `ArchiveRequests.ReusedNamePublishesHalfAnArchive`
  as a run).
- Pkt-lines with a length below four other than the flush packet crash the splitter
  (`PktLine.CrashIff`, `PktLine.ScanCrashesIff`).

## Model

| member | source | states |
|---|---|---|
| `UploadSafety.SaveEndToEnd` | internal/filestore/file_handler.go:85-157 | in every reachable state of producer, uploader, part PUTs, cleanup, deadline and store: a save that succeeded and whose upload ended without error, as every successful save does while the caller's context lives, has hashed and stored locally exactly the reader's content, of the declared size, and sent it as the unique cut into parts; each part is listed with the MD5 of what was hashed of it at its answer, the store holds the object under the ETag of that list until cleanup sends its request, and the object is the reader's content if and only if no part was accepted before its PUT had carried all of it |
| `UploadSafety.SuccessIsStoredIff` | internal/objectstore/uploader.go:51-63 | when Close reports success, caller gone or not, and cleanup has not sent its request, an object is stored if and only if the answer to the completion had been accepted; with the reading side of the pipe closed it always is, and while the caller lives Close returns only then |
| `UploadSafety.TagIsTheBodysIff` | internal/objectstore/multipart.go:208-230 | a listed part has the MD5 of its whole body if and only if all of it had been hashed when the tags were compared, or a shorter prefix has the same MD5 |
| `UploadSafety.CompletedPartsAgree` | internal/objectstore/multipart.go:120-176 | whenever a completion is accepted the part list agrees with every tag the store recorded, the bodies are the cut of what was received, and the store has taken all of them if and only if it accepted none early |
| `UploadSafety.UntroubledSave` | internal/filestore/file_handler.go:129-157 | when no request, context or store failed, nor the reader or the local file, the result is decided by the sizes alone: wrong size, then too large, then success, each exactly |
| `UploadErrors.WhyTheSaveFailed` | internal/filestore/file_handler.go:129-152 | in every reachable state a save that failed has failed for the cause that its error names: EntityTooLarge only when the upload ran out of parts, and then the content is longer than P * U; DeadlineExceeded only when the deadline ended the upload's context; an upload error only if it is the one recorded, and another than ErrNotEnoughParts; a wrong size only for one |
| `UploadErrors.CloseReports` | internal/objectstore/uploader.go:51-63 | a Close of the complete stream reports the deadline exactly if that ended the context, else EntityTooLarge exactly for ErrNotEnoughParts, else exactly the recorded error, else success |
| `UploadErrors.EachErrorHasItsStep` | internal/objectstore/multipart.go:62-93 | each error of the uploading goroutine comes exactly from its own step: tempfile, PUT of a part, drain, completion, ETag comparison |
| `UploadErrors.BrokenPipeReports` | internal/objectstore/multipart.go:56-60 | a Write that meets the closed pipe fails with the error for which the upload has ended |
| `UploadErrors.FirstErrorIsKept` | internal/filestore/file_handler.go:127-135 | a save that is failing on its own side returns that error whatever happens to the upload |
| `UploadErrors.EachFailureHasItsStep` | internal/filestore/file_handler.go:119-135 | each error of the save's own side comes exactly from its own step: opening, reading, local write, size check at the end of the content |
| `UploadErrors.OpensFirst` | internal/filestore/file_handler.go:119-128 | over every run: with a local file nothing is read before it has been opened |
| `UploadErrors.ContextEndsBy` | internal/objectstore/multipart.go:39-60 | over every run the upload's context is ended by the first of deadline, caller and end of the uploading goroutine, and a caller who leaves has always ended it |
| `UploadErrors.PartIsCancelledIff` | internal/objectstore/multipart.go:208-230 | the PUT of a part can be cancelled exactly after the caller of the save has left |
| `UploadErrors.StoreTakesWhatArrives` | internal/objectstore/multipart.go:120-176 | the uploading goroutine changes the store by the requests that arrive there, answered or not, and only by them |
| `UploadSafety.CompleteExactlyWhenItFits` | internal/objectstore/multipart.go:62-91 | complete is never sent for more than P * U bytes; without failures of the upload it is sent exactly for streams that fit, and ErrNotEnoughParts is the outcome exactly for the others |
| `UploadSafety.FailedSaveIsStored` | internal/filestore/file_handler.go:90-96 | a save that fails with a wrong size, a read error or a local error still has what went through the pipe completed in the store, exactly when it fits the parts |
| `UploadSafety.OneCleanupRequest` | internal/objectstore/multipart.go:102-118 | no run sends both abort and delete; the delete waits for the caller's context; an abort comes only after an upload error; empty URLs send nothing |
| `UploadSafety.CleanupChoosesExactly` | internal/objectstore/multipart.go:102-118 | after both goroutines ended, abort was chosen exactly when the upload failed and cleanup had not looked too early |
| `UploadSafety.CleanupInTime` | internal/objectstore/multipart.go:54-60 | when the uploading goroutine ends before deadline and caller, abort is sent exactly for failed uploads, delete exactly for the others and after the caller is done |
| `UploadSafety.NothingLeftBehind` | internal/objectstore/uploader.go:70-90 | when cleanup's request arrives nothing is left if and only if an abort finds no completion recorded or a delete finds one; when the upload ended before cleanup looked only the abort can leave something; the test stub, which treats both alike, is left empty always |
| `UploadProgress.CleanupWaitsFor` | internal/objectstore/multipart.go:102-118 | cleanup waits for the end of the upload's context and then, unless the upload failed, for that of the caller's, and for nothing else |
| `UploadProgress.LostDeleteChangesNothing` | internal/objectstore/uploader.go:69-90 | a request of cleanup that is lost, or has no URL, leaves the store alone and ends cleanup |
| `UploadRuns.AbortLeavesTheObject` | internal/objectstore/multipart.go:102-118 | a run in which the answer to a recorded completion is lost and the abort leaves the object |
| `UploadSafety.RunKeepsInv` | internal/objectstore/multipart.go:39-94 | the invariant tying data, parts, contexts, cleanup and store together holds over every run |
| `UploadProgress.RunsAreBounded` | internal/objectstore/multipart.go:39-94 | no run, the steps of the part PUTs included, has more than 9 steps per byte, 12 per part URL, plus 26 |
| `UploadProgress.NoDeadlock` | internal/objectstore/uploader.go:51-63 | while the save or the upload is unfinished one of them can step, and needs no failure, deadline or cancellation for it |
| `UploadProgress.CanFinish` | internal/filestore/file_handler.go:102-157 | every reachable state can be run to the end of save and upload, without failures if there were none so far |
| `UploadProgress.FittingContentCanBeSaved` | internal/filestore/file_handler.go:85-157 | every content that fits its declared size and its parts has a run that saves it |
| `UploadRuns.DeadlineRaceSkipsTheAbort` | internal/objectstore/multipart.go:102-118 | a run in which the deadline passes during a PUT and the failed upload is deleted but never aborted |
| `UploadRuns.CancelledSaveCanClaimSuccess` | internal/filestore/file_handler.go:83-84 | a run in which a save succeeds without a completed object because the caller's context ended; the exact condition is `UploadSafety.SuccessIsStoredIff` |
| `UploadRuns.EarlyPartCutsShort` | internal/objectstore/multipart.go:208-230 | a run in which the store accepts a part after its first chunk and the save succeeds with an object that lacks the rest |
| `UploadRuns.ReadErrorIsStored` | internal/filestore/file_handler.go:127-135 | from wherever the reader fails, the save can fail with a read error while what was read so far is completed in the store, exactly when it fits |
| `PartArithmetic.CutIsUnique` | internal/objectstore/multipart.go:63-75 | whatever way a stream is cut into full parts and a shorter non-empty last one, it is the reference cut |
| `PartArithmetic.CutLength` | internal/objectstore/multipart.go:62-85 | a cut has ceil(n / P) parts, and at most U of them exactly when n <= P * U |
| `PartArithmetic.ExtendCut` | internal/objectstore/multipart.go:178-206 | another part after full ones keeps the stream cut correctly |
| `Multipart.Multipart.Upload` | internal/objectstore/multipart.go:54-91 | whatever requests are lost and tags overwritten, success means the whole stream sent in parts of the exact size and completed under the ETag of what was hashed; ErrNotEnoughParts is only the outcome of a stream that does not fit, a lost part or completion is reported as such, and with a truthful store the outcome is exactly that of the first lost request and else of the sizes |
| `Multipart.Multipart.SendParts` | internal/objectstore/multipart.go:62-75 | the loop ends at the end of the stream, the last URL or a failed part, and with a truthful store fails only for a part whose PUT is lost |
| `Multipart.Multipart.ReadAndUploadOnePart` | internal/objectstore/multipart.go:178-206 | takes at most partSize bytes, sends them under the next number; an empty read is no part; keeps the loop's invariant |
| `Multipart.Multipart.UploadPart` | internal/objectstore/multipart.go:208-230 | an accepted part has the MD5 of what of it was hashed at the comparison, and of its whole body unless the stub's tags are overwritten, recorded by the store under its number |
| `Multipart.Multipart.CompleteUpload` | internal/objectstore/multipart.go:120-176 | no error only if the store's ETag is the one built from the part list and the object replaced the upload |
| `FileHandler.FileHandler.CopyToAll` | internal/filestore/file_handler.go:127-135 | the fan-out gives every byte read to the hashes, the pipe and the local file alike, up to the reader's error or the chunk whose local write fails |
| `FileHandler.TroubleComesFrom` | internal/filestore/file_handler.go:102-135 | which failure ends the copy, in the order in which they can come up, and how much has gone into the pipe by then |
| `FileHandler.FileHandler.SaveFileFromReader` | internal/filestore/file_handler.go:85-157 | success delivers the whole content to hashes, local file and store; a failure of reader or local file is reported as such, a wrong size exactly for one, EntityTooLarge only for a content that does not fit, and a lost part or completion as that upload error, with a truthful store each of them exactly; whatever went through the pipe is completed when it fits |
| `FileHandler.UploadAll` | internal/objectstore/multipart.go:54-94 | the outcome of the uploading goroutine for what the pipe has carried |
| `ObjectUpload.SuccessMeansAgreement` | internal/objectstore/object.go:54-132 | a successful save has written and hashed everything, and the ETag is the MD5 of a prefix hashed by the time of the comparison |
| `ObjectUpload.CloseReports` | internal/objectstore/uploader.go:51-63 | Close of the single PUT reports the deadline exactly if that ended the context, else exactly the recorded error; without either the ETags have agreed |
| `ObjectUpload.EachErrorHasItsStep` | internal/objectstore/object.go:94-131 | a lost request, another status and a mismatch of the ETags are reported as just that |
| `ObjectUpload.AnswersStore` | internal/objectstore/object.go:104-122 | the store keeps what it has read of the body by its answer, also when the answer is lost, and nothing after another status |
| `ObjectUpload.ContextEndsBy` | internal/objectstore/object.go:71-95 | over every run the context is ended by the first of deadline, caller and end of the upload |
| `ObjectUpload.WholeObjectIff` | internal/objectstore/object.go:94-129 | for every run split where the store answers: a later success has stored the whole content if and only if the pipe had nothing left to carry at that step |
| `ObjectUpload.HasherLag` | internal/objectstore/uploader.go:43-47 | the hasher lacks exactly what the pipe has carried of the chunk being written |
| `ObjectUpload.TruthfulAnswerPassesIff` | internal/objectstore/object.go:124-128 | what is hashed at the comparison and what was stored at the answer are prefixes of one content, and the answer of a truthful store passes if and only if they are equally long or two different prefixes have one MD5; unless more was carried since, equally long means that no chunk is between pipe and hasher |
| `ObjectUpload.DeletedOnceCallerIsDone` | internal/objectstore/object.go:82-92 | the object is deleted at most once, whatever the outcome, and only after both contexts are done |
| `ObjectUpload.EveryContentCanBeSaved` | internal/objectstore/object.go:94-129 | for every sequence of chunks there is a run in which a truthful store makes the save succeed with the whole object stored |
| `ObjectUpload.CompleteObjectCanMismatch` | internal/objectstore/object.go:124-128 | a run in which a truthful store has the complete object and the comparison fails |
| `ObjectUpload.EarlyAnswerCutsShort` | internal/objectstore/object.go:94-129 | a run in which the save succeeds and the stored object is cut short |
| `ObjectStore.BuildETagOfParts` | internal/objectstore/s3_complete_multipart_api.go:60-75 | the ETag built from a truthful part list is the MD5 of the MD5s of the bodies with the number of parts |
| `ObjectStore.ETagOfTwoParts` | internal/objectstore/s3_complete_multipart_api.go:54-75 | the form written out for two parts: hexadecimal MD5 of the two MD5s one after the other, a dash, and the digit 2 |
| `ObjectStore.BuildMultipartUploadETag` | internal/objectstore/s3_complete_multipart_api.go:60-75 | the hashing loop computes that ETag for every part list, and none when a digest is not hexadecimal |
| `Bytes.DecimalIs` | internal/objectstore/s3_complete_multipart_api.go:74 | the part count of a multipart ETag is written in decimal digits that stand for it |
| `Bytes.HexIsLowerCase` | internal/objectstore/uploader.go:99-106 | checksums are written in lower-case hexadecimal, two digits a byte |
| `ObjectStore.ExtractUndoesHeader` | internal/objectstore/uploader.go:92-97 | the ETag is recovered from a bare or a quoted header |
| `ObjectStore.ExtractsExactly` | internal/objectstore/uploader.go:92-97 | quotes come off, a header that does not start with one is left alone, and a lone quote is the one header that crashes |
| `ObjectStore.ObjectstoreStub.InitiateMultipartUpload` | internal/objectstore/test/objectstore_stub.go:104-114 | starts an upload unless one is in progress, and touches no other path |
| `ObjectStore.ObjectstoreStub.PutObject` | internal/objectstore/test/objectstore_stub.go:149-181 | records the ETag as part or object of its path only |
| `ObjectStore.PutKeepsTheRest` | internal/objectstore/test/objectstore_stub.go:152-178 | a part is kept under its number beside the others, and without an upload in progress the body is the object |
| `ObjectStore.HasKeyIff` | internal/objectstore/test/objectstore_stub.go:234-241 | a path has a key if and only if it is a bucket, a slash and the key |
| `ObjectStore.ObjectstoreStub.CompleteMultipartUpload` | internal/objectstore/test/objectstore_stub.go:187-249 | completes exactly a list of agreeing parts of an upload in progress, the empty list included; a path without a key is completed but answered with an error in the body; a refusal changes nothing |
| `ObjectStore.ObjectstoreStub.RemoveObject` | internal/objectstore/test/objectstore_stub.go:129-147 | removes the upload in progress or else the object, and counts only what was found |
| `AdmissionQueue.CountingInvariant` | internal/queueing/queue.go:155-208 | over any interleaving of any number of requests the channel lengths are the numbers of requests that hold a slot or a token |
| `AdmissionQueue.Bounds` | internal/queueing/queue.go:135-148 | at most limit handlers run, and the waiters never exceed queueLimit + (limit - running), between the receives of Release too |
| `AdmissionQueue.RefusedExactlyWhenFull` | internal/queueing/queue.go:155-165 | 429 exactly when limit + queueLimit slots are claimed, which is exactly when the waiting room is full |
| `AdmissionQueue.AnswersHaveTheirCause` | internal/queueing/queue.go:146-196 | over every run, for every request: it gives up if and only if its own timer fires, which needs that it found every token taken; it is refused if and only if it arrived when every slot was claimed; it is served if and only if its handler ran to its end |
| `AdmissionQueue.NobodyWaitsForNothing` | internal/queueing/queue.go:170-177 | a request that has claimed a slot runs at once if fewer than limit hold a token, and waits exactly if all are held |
| `AdmissionQueue.ReceivesFindAnElement` | internal/queueing/queue.go:167-208 | no receive of the error path or of Release can block |
| `AdmissionQueue.StampsAreFifo` | internal/queueing/queue.go:167-208 | the waiting times observed are those of the slots in the order claimed |
| `AdmissionQueue.OwnStampIff` | internal/queueing/queue.go:167-208 | a request that takes a stamp back has sent exactly one, and observes that one if and only if as many were taken back before as had been sent before it |
| `AdmissionQueue.OvertakerTakesTheOldestStamp` | internal/queueing/queue.go:200-208 | a run in which a request observes the stamp of an older one |
| `AdmissionQueue.NoDeadlock` | internal/queueing/requests.go:30-50 | while a request is unfinished some step other than a timeout is possible |
| `AdmissionQueue.CanFinish` | internal/queueing/requests.go:30-50 | from every reachable state all requests can be brought to their response without a timer firing, and then everyone is served who was not refused and had not given up |
| `AdmissionQueue.MaximalRunsDrainTheQueue` | internal/queueing/requests.go:30-50 | a run cannot be continued exactly when all requests are answered, and then both channels are empty |
| `AdmissionQueue.RunsEnd` | internal/queueing/requests.go:30-50 | no run of n requests exceeds 5 n steps |
| `AdmissionQueue.Queue.Acquire` | internal/queueing/queue.go:155-196 | the three outcomes, each exactly, with the channels each leaves behind |
| `AdmissionQueue.Queue.Release` | internal/queueing/queue.go:200-208 | takes the stamp first and the token second, and nothing else |
| `WatchKey.GlobalInvariant` | internal/redis/keywatcher.go:122-156 | in every reachable state a waiting call is listed once, under its own key, with an empty slot; nothing else is listed, no list is empty, the gauge is the number waiting, and no send under the mutex blocks |
| `WatchKey.ResultFixed` | internal/redis/keywatcher.go:174-204 | the result of a returned call exactly, each of the five outcomes by an if and only if on what its GET found and what it received, which is nothing or the first notification for its key between registration and removal; it is not listed any more |
| `WatchKey.TimesOutIff` | internal/redis/keywatcher.go:201-203 | over every run a call times out if and only if its own timer fires |
| `WatchKey.LeavesFor` | internal/redis/keywatcher.go:181-192 | the GET tells what Redis holds or fails, the call waits exactly if that is its value, and it receives the head of its channel |
| `WatchKey.NoLostWakeup` | internal/redis/keywatcher.go:174-190 | a call that saw its own value and is outdated without having been notified always has a notification on its way, unless a connection loss dropped some |
| `WatchKey.LossDropsTheWakeup` | internal/redis/keywatcher.go:105-120 | after a connection loss an outdated call can be left without a notification on its way, so the condition of NoLostWakeup is needed |
| `WatchKey.RedisHoldsTheLast` | internal/redis/keywatcher.go:181-184 | what a GET can find is the last value set, and nothing after the key was dropped |
| `WatchKey.PendingWakes` | internal/redis/keywatcher.go:58-84 | delivering what is on its way wakes the call, whatever is queued before it |
| `WatchKey.StaleCallIsWoken` | internal/redis/keywatcher.go:174-204 | an outdated call can be woken by the subscription alone |
| `WatchKey.RunKeepsInv` | internal/redis/keywatcher.go:122-204 | the registry and every call keep the invariant over all runs |
| `KeyWatcher.Watchers.AddKeyChan` | internal/redis/keywatcher.go:134-139 | appends the channel to its key's list and counts it |
| `KeyWatcher.Watchers.DelKeyChan` | internal/redis/keywatcher.go:141-156 | the in-place deletion removes exactly the first match, drops an emptied list and counts down only if it was listed |
| `KeyWatcher.Watchers.NotifyChanWatchers` | internal/redis/keywatcher.go:122-132 | every listener gets the value and the key is unregistered; each send finds its slot free |
| `KeyWatcher.ParseUndoesFormat` | internal/redis/keywatcher.go:58-84 | a published change is understood exactly when its key has no equals sign |
| `WriteAfterReader.RefinesPlainWriter` | internal/helper/writeafterreader.go:76-131 | without faults, after any interleaving of reads, writes and flushes, flushes during a write included: sink plus tempfile is everything written, the sink is empty while the reader is busy and nobody flushed, and a flush at any time makes it the whole |
| `WriteAfterReader.WhereAWriteGoes` | internal/helper/writeafterreader.go:76-95 | a write goes to the sink, behind the tempfile's content, if the reader was drained when it began, and to the tempfile if not, also when the stream ends before it is done |
| `WriteAfterReader.OfferedIsWhatWasWritten` | internal/helper/writeafterreader.go:76-131 | what the other theorems call written is the data of all calls of Write in order, and the reader counts as drained exactly once its stream has ended |
| `WriteAfterReader.SuccessMeansNothingIsMissing` | internal/helper/writeafterreader.go:76-131 | whatever faults there are, while every Write and Flush has reported success nothing that was written is missing |
| `WriteAfterReader.FailureMeansAFault` | internal/helper/writeafterreader.go:76-131 | a failure is reported only where there is a fault, or was one |
| `WriteAfterReader.SinkStaysPrefix` | internal/helper/writeafterreader.go:76-131 | with faults: as long as no call loses bytes silently the sink only ever holds a prefix of what was written |
| `WriteAfterReader.RemembersTheFault` | internal/helper/writeafterreader.go:76-95 | after a fault that Write remembers nothing can spoil the prefix any more |
| `WriteAfterReader.PrefixIffNothingLostSilently` | internal/helper/writeafterreader.go:76-116 | after a call the prefix is safe for ever if and only if the call did not lose bytes without remembering it |
| `WriteAfterReader.SilentLossBreaksThePrefix` | internal/helper/writeafterreader.go:97-116 | after a silent loss the write under way can end and a later one puts a wrong byte into the sink |
| `WriteAfterReader.BusyReader.Read` | internal/helper/writeafterreader.go:32-64 | the first error is recorded, under the reader's name unless it is the end of the stream, and that same error returned for ever, without asking the wrapped reader again |
| `WriteAfterReader.CoupledWriter.Write` | internal/helper/writeafterreader.go:76-95 | refuses after a remembered fault, spools while the reader is busy, else flushes before it writes |
| `WriteAfterReader.CoupledWriter.FlushAll` | internal/helper/writeafterreader.go:97-116 | moves the tempfile's content and forgets the tempfile whatever happens |
| `WriteAfterReader.CoupledWriter.TempfileWrite` | internal/helper/writeafterreader.go:118-131 | creates the tempfile once and appends what the write passes on |
| `ResponseChain.OneHeadOneBody` | internal/upstream/routes.go:108-123 | for every sequence of calls of the handler, on routes with error pages and without, the client gets exactly one head, and a body that is wholly the handler's or wholly one substitute: the error page, the script of the injecter or of the file that the recorded header value called, or the fixed text |
| `ResponseChain.WhoAnswers` | internal/upstream/routes.go:108-123 | which of them answers, and by which header value it was called, is decided by the headers and the status when the head is due |
| `ResponseHead.HeadOfTheResponse` | internal/upstream/routes.go:108-123 | if no script is silent the client's head is fixed, when it is due, by the headers and the status then, through Block, SendFile, SendData and the page; nothing that follows changes it |
| `ResponseHead.UntouchedResponse` | internal/senddata/senddata.go:67-79 | a response that nobody takes over goes out with the handler's status and all its headers but the Send-Data key, or with its error page |
| `ResponseHead.BlockedResponse` | internal/api/block.go:42-57 | a blocked response has status 500, the handler's headers without length and Send-Data key, and the type of the fixed text, or its error page |
| `ResponseHead.ScriptedResponse` | internal/sendfile/sendfile.go:80-103 | an injecter's or a file's answer has the head of its script, started with the handler's headers without the one that called it and with buffering off |
| `ResponseHead.FirstBodyMakesTheHead` | internal/staticpages/error_pages.go:39-47 | a body that reaches ErrorPages before any head goes out unaltered under a 200 |
| `ResponseHead.PageIsDueIff` | internal/staticpages/error_pages.go:49-77 | an error page replaces a response exactly for an error status that has a page, without X-GitLab-Custom-Error and not JSON; it keeps the status and sets type, length and no caching |
| `ResponseHead.FirstBodyDecides` | internal/sendfile/sendfile.go:70-78 | a body that reaches SendFile before any head makes it decide as for a 200 |
| `ResponseHead.SendFileHeaderIsGoneIff` | internal/sendfile/sendfile.go:80-103 | for scripts that leave it alone, X-Sendfile is gone from every head of a 200 that Block lets through if and only if no script is silent |
| `ResponseHead.SendFileHeaderIs` | internal/sendfile/sendfile.go:80-103 | with scripts that speak, the head of any response carries the handler's X-Sendfile exactly if it is not a 200 or is blocked |
| `ResponseChain.SendDataHeaderIsGone` | internal/senddata/senddata.go:57-105 | for injecters that do not set it the Send-Data header is gone from every head sent before the end; only after a silent injecter is none sent by then, and the client gets a 200 with the header map as it is then |
| `ResponseChain.KeyIsGoneIff` | internal/senddata/senddata.go:57-105 | on any route, no handler can make a head go out with the Send-Data header if and only if every injecter that a header can call writes a status or a body |
| `ResponseChain.SilentInjecterLeavesTheHead` | internal/senddata/senddata.go:81-101 | on any route, after any injecter that only touches headers whatever header the handler sets next goes out with the head |
| `ResponseChain.InternalTypeNeverLeaks` | internal/api/block.go:31-61 | a response of the internal content type when its head is due comes out as the fixed 500 in plain text or as its static page in HTML |
| `ResponseHead.InternalTypeIff` | internal/api/block.go:31-61 | on any route, no handler can make a head of the internal type go out if and only if no file and no injecter that a header can call is silent |
| `ResponseWriters.Handle` | internal/upstream/routes.go:108-123 | any calls of a handler on the innermost writer and the shared header map do what the composed functions say |
| `ResponseWriters.Serve` | internal/upstream/routes.go:108-123 | the four stacked writers sharing one header map, and the server's end of the response, do to the client exactly what the composed functions say, with exactly one head |
| `ResponseWriters.Recorder.Write` | internal/helper/logging.go:65-73 | a body without a head makes the head a 200 |
| `ResponseWriters.ErrorPageResponseWriter.WriteHeader` | internal/staticpages/error_pages.go:49-77 | the first status decides; an error status with a page replaces headers and body |
| `ResponseWriters.CountingResponseWriter.WriteHeader` | internal/helper/countingresponsewriter.go:37-44 | the first status wins |
| `ResponseWriters.SendDataResponseWriter.TryInject` | internal/senddata/senddata.go:81-101 | the first injecter for the header takes over, after the header is deleted |
| `ResponseWriters.SendDataResponseWriter.WriteHeader` | internal/senddata/senddata.go:67-79 | injects on a 200 only, and passes one head on otherwise |
| `ResponseWriters.SendFileResponseWriter.WriteHeader` | internal/sendfile/sendfile.go:80-103 | deletes X-Sendfile, serves the file on a 200 and passes one head on otherwise |
| `ResponseWriters.Blocker.WriteHeader` | internal/api/block.go:42-57 | turns a response of the internal content type into the 500, once |
| `ZipMetadata.GenerateZipMetadata` | internal/zipartifacts/metadata.go:63-105 | the output is the framing of header, error record and one pair per path, the path before its attributes, over exactly the names and their ancestors, in the order of strings; it can be read back if the records are short |
| `ZipMetadata.AncestorStep` | internal/zipartifacts/metadata.go:83-91 | one turn of the path.Dir loop drops a component and the measure, and the loop ends exactly at "." or "/" |
| `ZipMetadata.AncestorsOfCleanName` | internal/zipartifacts/metadata.go:83-91 | the ancestors of a clean name are its proper prefixes with a slash; those of a directory entry include the entry |
| `ZipMetadata.AddEntry` | internal/zipartifacts/metadata.go:78-91 | an entry overrides what is there, its ancestors never do, and the map is exact after each entry |
| `ZipMetadata.OrderDoesNotHideEntries` | internal/zipartifacts/metadata.go:78-91 | the maps made of two orders of one archive list the same paths, keep every entry's name as an entry of that name, and make up a directory only where there is none |
| `ZipMetadata.OwnerIsLast` | internal/zipartifacts/metadata.go:78-81 | of entries with one name the last is kept |
| `ZipMetadata.ListingDependsOnNamesOnly` | internal/zipartifacts/metadata.go:93-103 | archives with the same set of names list the same paths in the same order |
| `ZipMetadata.SortKeys` | internal/zipartifacts/metadata.go:93-97 | keys in any order come out complete and in the order of strings: a proper prefix first, else the smaller byte at the first difference |
| `ZipMetadata.LessIff` | internal/zipartifacts/metadata.go:96 | the comparison is that of strings: a proper prefix first, else the smaller byte at the first difference |
| `ZipMetadata.DecodeUndoesEncode` | internal/zipartifacts/metadata.go:107-117 | a reader of the length prefixes gets every record back |
| `ZipMetadata.FramingCanBeUndone` | internal/zipartifacts/metadata.go:107-113 | the framing can be undone if and only if every record is shorter than 2^32 bytes |
| `ZipMetadata.EncodeIsInjective` | internal/zipartifacts/metadata.go:107-117 | different lists of short records have different encodings |
| `ZipMetadata.StartsWithMagic` | internal/zipartifacts/metadata.go:64-69 | every output starts with the magic prefix and the header |
| `PathClean.CleanIdempotent` | internal/urlprefix/urlprefix.go:21-35 | cleaning a path twice is cleaning it once (path.Clean from its documented rules) |
| `PathClean.CleanFixpoint` | internal/urlprefix/urlprefix.go:21-35 | the clean paths are exactly the renderings of normal component lists |
| `PathClean.CleanRules` | internal/urlprefix/urlprefix.go:21-35 | the documented rules of path.Clean on strings: double slashes, dots, a component before two dots, and two dots at a root vanish; CleanFixpoint says what stays |
| `PathClean.CleanShortens` | internal/staticpages/servefile.go:27-30 | cleaning makes no path longer but the empty one, so a path that is not clean is no prefix of its clean form |
| `PathClean.ComponentsOfPath` | internal/urlprefix/urlprefix.go:21-35 | rendering normal components and reading them back is the identity |
| `PathClean.DirOfPath` | internal/zipartifacts/metadata.go:83-91 | path.Dir of a clean path drops the last component and gets shorter |
| `UrlPrefix.CleanURIPathIdempotent` | internal/urlprefix/urlprefix.go:21-35 | cleaning once is enough, trailing slashes included |
| `UrlPrefix.CleanURIPathIsSafe` | internal/urlprefix/urlprefix.go:21-35 | the result is rooted and has no empty, "." or ".." component but for the end of a trailing slash |
| `UrlPrefix.CleanURIPathRange` | internal/urlprefix/urlprefix.go:21-35 | the clean URI paths are exactly the renderings of safe components |
| `UrlPrefix.StripUndoes` | internal/urlprefix/urlprefix.go:10-12 | prefix without its slash plus the stripped path is the path |
| `UrlPrefix.MatchedPathsStrip` | internal/urlprefix/urlprefix.go:10-17 | a matched path strips to a rooted one, also when only the prefix's last slash is missing |
| `UrlPrefix.MatchIsByComponents` | internal/urlprefix/urlprefix.go:14-17 | a prefix matches exactly the paths whose components continue its own, with or without a last slash |
| `UrlPrefix.FileJoinIs` | internal/staticpages/servefile.go:27 | filepath.Join is the cleaned concatenation of the elements that are not empty |
| `UrlPrefix.StaticFileStaysBelow` | internal/staticpages/servefile.go:25-37 | the file of any request is the document root continued by safe components |
| `UrlPrefix.PrefixTestAlwaysPasses` | internal/staticpages/servefile.go:27-37 | for any document root, every request passes the prefix test if and only if the root is empty, or clean and not "." |
| `ArchiveRequests.PublishedIsComplete` | internal/git/archive.go:69-137 | over any interleaving, deletions included, in which no tempfile is created under a name that a request may still link, the cached name denotes the full output of one request whose commands and reads all succeeded |
| `ArchiveRequests.RunsWithoutClash` | internal/git/archive.go:89-93 | names do not clash when they are unique over the run, and also when nobody else deletes tempfiles |
| `ArchiveRequests.ExclusiveCreationSuffices` | internal/git/archive.go:167-172 | exclusive creation alone keeps the names from clashing as long as nobody else deletes tempfiles |
| `ArchiveRequests.ClashIsHarmfulIff` | internal/git/archive.go:89-93 | while nothing else clashes, something other than a full archive can come under the cached name after the creation of a tempfile if and only if it takes the name of a request that may still link it: before, during or after its copy and up to link(2), with commands that do not fail |
| `ArchiveRequests.PublishedNeverChanges` | internal/git/archive.go:174-183 | unless it is deleted the cached name keeps its inode and content over every run |
| `ArchiveRequests.LinkPublishes` | internal/git/archive.go:174-183 | a request that links its surviving tempfile leaves an archive under the cached name: its own full output if there was none, else the one that was there |
| `ArchiveRequests.FailedRunIsNeverPublished` | internal/git/archivereader.go:35-63 | the output of a run with a failed git or compress command is never the cached archive |
| `ArchiveRequests.ClientsGetFullArchives` | internal/git/archive.go:69-80 | a hit served to its end is a full archive even if the file is deleted meanwhile; a miss that went well is its own run's output |
| `ArchiveRequests.NothingLeftBehind` | internal/git/archive.go:93-99 | when all requests have returned only the cached name can remain |
| `ArchiveRequests.RunKeepsInv` | internal/git/archive.go:69-137 | complete files, open or published, keep their content over every run without a clash |
| `ArchiveRequests.ReusedNamePublishesHalfAnArchive` | internal/git/archive.go:89-92 | a run that publishes an unfinished archive when a deleted tempfile's name is drawn again |
| `ArchiveOutcomes.OutcomeOverRuns` | internal/git/archive.go:66-137 | over every run, clashes and deletions included: a request is served from the cache exactly if it may use it and found an archive when it looked; it fails exactly if its tempfile, its commands, its copy or the end of its stream failed; it makes a tempfile only with the cache; its client has the full output after a success and a prefix otherwise |
| `ArchiveOutcomes.UncachedLeavesTheDisk` | internal/git/archive.go:66-137 | a request without the cache never touches the disk |
| `ArchiveOutcomes.CanFinish` | internal/git/archive.go:66-137 | from every point of every run each request can come to its end by its own steps, with nothing failing |
| `ArchiveCache.Inject` | internal/git/archive.go:66-137 | one request in place: a hit changes nothing and serves the file; a miss publishes the full output exactly when everything worked, and leaves no tempfile |
| `ArchiveCache.Copy` | internal/git/archive.go:115-128 | the tee'd copy loop gives tempfile and client the full output exactly when nothing failed |
| `ArchiveCache.ArchiveReader.Wait` | internal/git/archivereader.go:49-63 | waits for all commands and returns the first error |
| `ArchiveCache.ArchiveReader.Read` | internal/git/archivereader.go:35-47 | the end of the stream is reported only if every command succeeded |
| `ArchiveCache.EndIsClean` | internal/git/archivereader.go:35-63 | the reader ends cleanly if and only if no read and no command failed |
| `ArchiveCache.FileSystem.LinkFile` | internal/git/archive.go:178-180 | link(2): refuses a missing source and an existing target, else adds one name for the same inode |
| `ArchiveCache.LinkAddsOneName` | internal/git/archive.go:174-183 | a link is made exactly if its source is there and its name free; it never replaces and changes nothing else |
| `Base64.DecodeUndoesEncode` | internal/terminal/wrappers.go:123-134 | every byte string survives base64 |
| `Base64.EncodeUndoesDecodeIff` | internal/terminal/wrappers.go:130-134 | an accepted text is the encoding of its value if and only if no stray bit is set |
| `Base64.LineBreaksAreIgnored` | internal/terminal/wrappers.go:130-134 | line breaks anywhere do not matter |
| `Base64.EncodedLength` | internal/terminal/wrappers.go:123-128 | the encoding fills its buffer exactly |
| `Base64.DecodedLength` | internal/terminal/wrappers.go:130-134 | the decoded bytes fit their buffer |
| `Base64.SymbolIsOfTheAlphabet` | internal/terminal/wrappers.go:123-128 | the digits are written in the alphabet of RFC 4648 |
| `Base64.ValueIsThePosition` | internal/terminal/wrappers.go:130-134 | exactly the characters of that alphabet are digits, with their position as value |
| `Base64.DigitsHoldTheBits` | internal/terminal/wrappers.go:123-128 | the digits of a group hold the bits of its bytes in order, filled up with zeros |
| `Base64.EncodeByGroups` | internal/terminal/wrappers.go:123-128 | every group of three bytes, and the shorter last one, is encoded at its place |
| `Terminal.ReadUndoesWrite` | internal/terminal/wrappers.go:36-134 | under each subprotocol a written data message reads back as a binary one with its payload; others pass unchanged |
| `Terminal.WireFormat` | internal/terminal/wrappers.go:11-24 | the four subprotocols by name, and what each puts on the wire for a data message |
| `Terminal.ReadFormat` | internal/terminal/wrappers.go:36-94 | what each subprotocol makes of a data message received, corrupt base64 and empty kube messages included |
| `Terminal.ChannelsAreCoalesced` | internal/terminal/wrappers.go:73-94 | the channel number of a kube message makes no difference |
| `Terminal.TranscodingKeepsPayload` | internal/terminal/proxy.go:43-55 | a message read under one subprotocol and written under another keeps its payload |
| `Terminal.FarSideReads` | internal/terminal/proxy.go:43-55 | a whole sequence sent under a subprotocol is read back in order |
| `Terminal.ProxiedSessionKeepsPayloads` | internal/terminal/proxy.go:43-55 | whatever two subprotocols meet, what one side sends is what the other side reads |
| `Terminal.Proxy` | internal/terminal/proxy.go:43-56 | the copy loop relays exactly the readable messages, transcoded and in order, as far as the other side takes them, and says which side failed |
| `Terminal.Wrapper.ReadMessage` | internal/terminal/wrappers.go:36-50 | reads one message and unwraps it, or fails on corrupt base64 |
| `Terminal.Wrapper.WriteMessage` | internal/terminal/wrappers.go:97-109 | wraps data for its subprotocol and leaves other messages alone |
| `StopChannel.SendNeverBlocks` | internal/terminal/proxy.go:27-41 | with the channel of NewProxy no sender ever blocks, for any number of stoppers, whether or not Serve runs or has returned |
| `StopChannel.CapacityIsExact` | internal/terminal/proxy.go:26-31 | stoppers + 2 is exactly the least capacity for which that holds |
| `StopChannel.ServeReturnsTheFirstError` | internal/terminal/proxy.go:33-41 | Serve returns the first error sent |
| `StopChannel.NobodySendsTwice` | internal/terminal/terminal.go:121-131 | each stopper sends at most one error |
| `StopChannel.RunLeaves` | internal/terminal/proxy.go:33-56 | over every run: who has failed, sent or quit, and whether Serve has started, received or returned, is exactly what the steps in the run say |
| `StopChannel.QuitsIff` | internal/terminal/auth_checker.go:33-47 | a stopper may quit exactly as long as it has neither quit nor an error to send; a copy loop never |
| `StopChannel.ServeCanReturn` | internal/terminal/proxy.go:40 | once an error has been sent Serve returns the first one by its own steps |
| `StopChannel.SenderCanFinish` | internal/terminal/proxy.go:43-56 | whatever the others do a started sender can end by its own steps |
| `StopChannel.AuthChecker.Loop` | internal/terminal/auth_checker.go:33-47 | counts the agreeing answers and reports exactly the first that differs |
| `PktLine.PrefixAgrees` | internal/git/pktline.go:23-59 | on a prefix the splitter asks for more or gives the answer of the whole, for every byte string |
| `PktLine.ParseUndoesEncode` | internal/git/pktline.go:23-59 | splitting an encoded sequence of flush packets and packets of length 4 to 65535 gives back the payloads |
| `PktLine.FullBufferSuffices` | internal/git/pktline.go:50-55 | the splitter never asks for more than the scanner's buffer holds |
| `PktLine.CrashIff` | internal/git/pktline.go:38-58 | the slice expression crashes exactly on the length prefixes below four that are no flush packet: 0001 to 0003, +000 to +003 and -000 |
| `PktLine.ScanCrashesIff` | internal/git/pktline.go:11-21 | scanDeepen crashes if and only if such a prefix follows complete tokens none of which starts with "deepen" |
| `PktLine.ScanDeepen` | internal/git/pktline.go:11-21 | the incremental scanner's answer is that of the whole content, whatever the chunks |
| `PktLine.DeepenIff` | internal/git/pktline.go:11-21 | on a well-formed stream the answer is whether some payload starts with "deepen" |

## Left out

- ResponseWriters.CountingResponseWriter.Write: does not model the byte count, which only feeds metrics.
- AdmissionQueue.Queue.Acquire: gives the outcome when no other request takes a step meanwhile; the interleaved outcomes are those of the step system.
- FileHandler.FileHandler.SaveFileFromReader: runs the uploading goroutine after the producer instead of beside it, and no context ends early; the interleavings and the contexts are those of UploadPipeline.
- Multipart.Multipart.Upload: runs against the test stub; a store that answers whatever and whenever it likes is that of UploadPipeline.
- UploadSafety.CompletedPartsAgree: a request that reaches the store after the Close of its part has returned is recorded at that return, not later.
- ArchiveCache.Inject: is one request on its own; interleaved requests are those of ArchiveRequests.
- Terminal.Proxy: is one copy loop against a connection whose incoming messages are fixed; the two loops meet only in the stop channel.
- WriteAfterReader.CoupledWriter.Write: takes the outcome of each I/O operation as a parameter; creating, rewinding and removing the tempfile cannot be told apart beyond that.
- The tempfile that buffers a part is a byte string, and the drain after the last part cannot fail because a pipe's reader end only reports the end of the stream.
- Contexts and channels are atomic: what Go's memory model allows between an unsynchronised write of uploadError or of the running MD5 and its reader is limited to the order of steps.
- Removal of a local upload file when the caller's context ends, and saving a file from disk through SaveFileFromReader.
- ETag headers are taken to be a bare or a quoted tag as in section 2.3 of RFC 7232; a lone quote, on which extractETag crashes, is not sent by the model's store.
- MD5 is any function; no proof needs it to be injective.
- Redis itself: a map, an ordered channel of notifications, and connection losses that drop some; reconnecting with back-off.
- The server: net/http ends a response without a head by a 200 with the current header map; what it adds to a head, and Hijack, are not modelled.
- Content of injecters and of SendFile: any script of header changes and writes; MIME parsing of the content type is a predicate; write errors towards the client.
- HTTP ranges and conditional requests when a cached archive is served; the reader obtained from Gitaly is any CommandRun; killing the commands when the request ends.
- The JSON of a zip entry is any string, gzip around the metadata stream is the identity, and order is that of bytes.
- Websocket control frames, pings and dialling; the comparison of terminal settings is equality.
- Readers that return data together with an error, or neither data nor an error, under bufio.Scanner; growth of its buffer below the limit.
- Timers, metrics, logging, JWT, configuration, routing by regular expressions, Gitaly and Redis clients: foreign or stateless.
- Correlation IDs, the connection and secret caches, URL joining: they would only add easy members.

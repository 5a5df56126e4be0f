# FileDrop engine: a verified model

FileDrop sends files between devices on a local network. This project models the Rust engine behind it and proves
what the engine keeps over whole runs:

* the resumable upload protocol, sender and receiver, with drops, cancels, torn writes and crashes anywhere,
  and any number of transfers interleaving;
* the transfer queue with its three permits and the workers that serve it;
* the pairing state machine, as statements about complete histories;
* the history store, with a crash anywhere inside a rewrite of its file;
* the string functions the receiver relies on: file names, paths, the `Content-Range` header, pairing tokens.

`dafny verify dfyconfig.toml` checks everything.

## How it is built

| files | part of the engine |
|---|---|
| `Prelude`, `StagedFile`, `Checksum`, `Session` | shared types, positioned writes, streaming digests, per-transfer state |
| `ContentRange`, `SafePath`, `Filename`, `Tokens` | headers, paths, names, pairing tokens |
| `Upload` | the POST handler as a transition system: one step per await point, plus signals, drops and crashes |
| `UploadIsolation`, `UploadSafety`, `UploadTheorems`, `UploadControl`, `UploadResume` | what holds of every run of it |
| `UploadCancel` | when a cancel or a pause is seen, and how much is still written |
| `UploadHeaders`, `UploadDigest` | what a request asks for, what opening does, and what the digest check is worth |
| `UploadStatus`, `UploadStale` | what the status endpoint is good for, and the runs in which it misleads |
| `UploadScript`, `Server` | the handler as a class method with its chunk loop, proved to do exactly what the transition system does |
| `Client` | the sending side, and the way from one device's file to the other's |
| `Queue`, `Sending`, `Scheduler`, `SchedulerProofs`, `SchedulerActive`, `SchedulerSessions` | queue, callers and workers |
| `Pairing`, `History` | pairing and history, each as a class over a function that its lemmas are about |

SHA-256 is a parameter: any function on byte strings. A hasher's state is the bytes fed so far. JSON is any encoding of
record lists that decodes back. Clocks, random bytes and fresh identifiers are arguments. How a system call goes, how
reads and chunks fall, when bytes that the file object has accepted reach the file, and in which order a hash map is
enumerated are left open, so the results hold for all of it.

Where a promise turned out false of the code, the code is modelled as it is, a concrete failing input is given, and
the exact condition is proved:

* A published file need not have the announced length. Input: `UploadStale.ResumeAtEndPublishesEmptyFile`. Condition:
  `UploadControl.PublishedLengthExact`.
* `docs/PROTOCOL.md` (section 4.5) has a dropped sender ask the status endpoint where to resume.
  * The endpoint answers 404 after the 206 and most other endings. Condition: `UploadStatus.StatusAfterEnding`, over
    every way a request can end; `UploadStatus.StatusUnknownAfterPartial`.
  * The number it reports may lead nowhere. Inputs: a connection lost between rename and answer
    (`UploadStale.FollowingStatusOverwrites`), an upload that completes after the answer
    (`UploadStale.AnswerOvertaken`), one that is cancelled after it (`UploadStale.CancelLeavesHole`), and a chunk that
    was counted but never reached the file (`UploadStale.FailedFlushShortens`). A sender that follows the advice then
    gets a 200 for something else than its file, unless its checksum tells. Conditions: `UploadStatus.CanResumeIff` and
    `UploadStatus.HonestCanResumeIff` at the end of a request, `UploadStatus.HeardUsableIff` for the time between answer
    and use; `UploadStale.ResumeOutcome` and `UploadStale.ResumeHarmlessIff` for what resuming elsewhere publishes.
  * Where the count still stands when it is used, the promise holds: `UploadStatus.FollowingStatusDelivers`.
* The length bound, the reserved-name rule, the trimmed ends and stability of `sanitize_filename` fail on some over-long
  names. Inputs: `Filename.LongExtensionExceedsBound`, `Filename.TruncationExposesReservedStem`,
  `Filename.TruncationExposesBlank`. Conditions, all on the name before the cut: `Filename.SanitizedLength`,
  `Filename.ReservedStemIff`, `Filename.UncleanEndsIff`, `Filename.SanitizeIdempotentIff`.
* The comment on `sanitize_filename` has it strip `..` sequences and append an underscore to device names. The code
  trims dots at the ends only and puts the underscore in front: `Filename.NameBeforeTheCut`.
* A cancel, which an embedding caller gives through the session, need not be seen. Input:
  `UploadCancel.CancelCanComeTooLate`. Conditions: `UploadCancel.CancelSeenIff` and
  `UploadCancel.CancelMissedIff` over runs, `UploadCancel.CancelledOutcome` over what network and disk do.
* A transfer can stay on the active list for ever. Input: `SchedulerActive.OwnMarkingCanLeak`. Condition:
  `SchedulerActive.OwnMarkingLeavesTheLate`; none does if workers come to the queue in order:
  `SchedulerActive.InOrderWorkersLeaveNone`.
* The status of a sending transfer can count another file's bytes. Input: `SchedulerSessions.SessionsCanMix`. Condition:
  `SchedulerSessions.SessionsCountOwnIff`.
* A crash never corrupts the history file, but a restart that cannot check whether the file exists starts empty, and
  its next rewrite discards the history. Input: `History.BlindRestartLosesHistory`. Condition:
  `History.RestartKeepsHistoryIff`.

## Model

| member | source | states |
|---|---|---|
| `ContentRange.ParseU64Exact` | rust/filedrop-core/src/transfer/server.rs:256-262 | the parser with per-step overflow checks accepts exactly the decimals below 2^64 and returns the number they denote |
| `ContentRange.ParseU64Names` | rust/filedrop-core/src/transfer/server.rs:115-123 | the parser answers a number iff the text is an optional plus and digits denoting it, below 2^64 |
| `ContentRange.ValueExact` | rust/filedrop-core/src/transfer/server.rs:256-262 | what digits denote: each weighs ten times the next |
| `ContentRange.DecimalExact` | rust/filedrop-core/src/transfer/client.rs:86-100 | how a number is printed, last digit by last digit |
| `ContentRange.ContentRangeText` | rust/filedrop-core/src/transfer/client.rs:95-100 | the printed header in full: unit, offset, last byte, total |
| `ContentRange.ContentRangeRoundTrip` | rust/filedrop-core/src/transfer/client.rs:95-100 | for every 64-bit offset and every total, the server parses the client's printed header back to the offset |
| `ContentRange.ParseResumeOffsetExact` | rust/filedrop-core/src/transfer/server.rs:256-262 | a header yields an offset iff it is the unit, an optional plus, digits below 2^64, and then the end or a dash; both directions |
| `SafePath.PushComponents` | rust/filedrop-core/src/security/path.rs:29-45 | the component loop succeeds iff there is no parent and no root component, with the normal parts in order |
| `SafePath.SafeJoin` | rust/filedrop-core/src/security/path.rs:14-62 | accepted iff no NUL, not blank, no leading separator of either kind, no parent segment, some normal segment; the value is base plus the normal segments; the final escape rejection is never taken |
| `SafePath.ComponentsExact` | rust/filedrop-core/src/security/path.rs:26-45 | the platform's components against plain splitting at slashes: same names, a parent iff a `..` segment, a root iff a leading slash |
| `SafePath.ResolveStaysUnderBase` | rust/filedrop-core/src/security/path.rs:51-61 | an accepted path lies strictly under base and what follows base has no dot, parent or empty component |
| `SafePath.SegmentsExact` | rust/filedrop-core/src/security/path.rs:26-28 | the segments are the only way to cut a path at every separator of either kind |
| `SafePath.NormalSegmentsExact` | rust/filedrop-core/src/security/path.rs:29-45 | which segments make the joined path: all, in order, except the empty ones, the dot and the double dot |
| `Filename.NameBeforeTheCut` | rust/filedrop-core/src/security/filename.rs:22-48 | which characters survive: the text behind the last separator, filtered, less the dots and blanks at both ends; an underscore goes in front iff that is reserved, and the fallback name stands iff nothing is left |
| `Filename.FilterKeptExact` | rust/filedrop-core/src/security/filename.rs:26-31 | the filter drops exactly the seven listed characters and the control characters, one by one and in order |
| `Filename.ReservedStemExact` | rust/filedrop-core/src/security/filename.rs:41-48 | a stem is reserved iff what precedes the first dot spells one of the 22 device names in any case |
| `Filename.BeforeTruncationClean` | rust/filedrop-core/src/security/filename.rs:23-48 | up to the length check every name is free of separators and filtered characters, has no dot or blank at either end, and no reserved stem |
| `Filename.SanitizedLength` | rust/filedrop-core/src/security/filename.rs:50-59 | exact output length; at most 255 iff the name was short or its last extension is at most 255 |
| `Filename.TruncateShape` | rust/filedrop-core/src/security/filename.rs:50-59 | an over-long name keeps the front of its stem and its extension, or its extension alone if that fills the bound |
| `Filename.ExtensionSurvives` | rust/filedrop-core/src/security/filename.rs:50-59 | truncation never loses any of the extension |
| `Filename.ShortNamesAreClean` | rust/filedrop-core/src/security/filename.rs:22-62 | names not cut come out clean at both ends, unreserved, and unchanged by a second pass |
| `Filename.ReservedStemIff` | rust/filedrop-core/src/security/filename.rs:46-59 | the output has a reserved stem iff the name before the cut is over-long, its extension is shorter than the bound, and what the cut leaves of the stem is a device name |
| `Filename.UncleanEndsIff` | rust/filedrop-core/src/security/filename.rs:31-59 | the output starts with a dot iff the extension alone fills the bound; it ends in a blank iff an over-long name without extension is cut right behind one |
| `Filename.SanitizeIdempotentIff` | rust/filedrop-core/src/security/filename.rs:22-62 | a second pass changes nothing iff none of these three cuts happens, each told from the name before the cut |
| `Filename.LongExtensionExceedsBound` | rust/filedrop-core/src/security/filename.rs:55-58 | `a.` and 255 letters come out one byte over the documented bound |
| `Filename.TruncationExposesReservedStem` | rust/filedrop-core/src/security/filename.rs:46-59 | `CONx.` and 251 letters come out with the stem `CON`, and a second pass changes that again |
| `Filename.TruncationExposesBlank` | rust/filedrop-core/src/security/filename.rs:33-59 | 254 letters, a blank and a letter come out with the blank at the end |
| `Filename.SanitizedJoinsDirectlyUnderBase` | rust/filedrop-core/src/transfer/server.rs:125-134 | for every header name, over-long ones included, joining the sanitized name succeeds and adds exactly one component |
| `Checksum.HexEncodeInjective` | rust/filedrop-core/src/security/checksum.rs:55-57 | equal hex strings come from equal digests, so comparing headers compares digests |
| `Checksum.HexDigestIff` | rust/filedrop-core/src/security/checksum.rs:30-32 | two contents have the same hex digest iff the hash maps them to the same bytes; the digest spells those bytes in lower-case digits |
| `Checksum.Sha256Hasher.Update` | rust/filedrop-core/src/security/checksum.rs:26-28 | feeding appends |
| `Checksum.Sha256Hasher.FinalizeHex` | rust/filedrop-core/src/security/checksum.rs:30-32 | the answer is the hash of everything fed, two lower-case digits per byte |
| `Checksum.Sha256File` | rust/filedrop-core/src/security/checksum.rs:38-53 | the read loop over one reused buffer digests exactly the file, whatever the read sizes, and spells its hash; it fails only on a failing read |
| `Session.TransferSession.constructor` | rust/filedrop-core/src/transfer/session.rs:36-54 | a new session starts at the given offset, neither paused nor cancelled |
| `Session.TransferSession.AddBytes` | rust/filedrop-core/src/transfer/session.rs:56-58 | the counter grows modulo 2^64 and nothing else changes |
| `Session.TransferSession.Deliver` | rust/filedrop-core/src/transfer/session.rs:64-82 | each signal changes its own flag only |
| `StagedFile.WriteAtIndex` | rust/filedrop-core/src/transfer/server.rs:157-161 | each byte after a positioned write comes from the data, from the old file, or is a zero of the hole |
| `StagedFile.WriteAtCompose` | rust/filedrop-core/src/transfer/server.rs:197-202 | writing chunk after chunk from the cursor is one write of their concatenation, holes and leftovers included |
| `StagedFile.WriteAtKeepsPrefix` | rust/filedrop-core/src/transfer/server.rs:157-161 | overwriting a prefix of a file from inside it with that file's own bytes keeps it a prefix, and makes it the file at the end |
| `UploadHeaders.AdmitExact` | rust/filedrop-core/src/transfer/server.rs:103-139 | which headers are refused and why, in both directions, and what the others ask for: size, name, digest and offset as the texts name them |
| `UploadHeaders.OpeningExact` | rust/filedrop-core/src/transfer/server.rs:141-178 | what opening leaves: part truncated, kept or created, session at the offset with the announced size, or a refusal without session |
| `UploadHeaders.StatusCodesAsDocumented` | docs/PROTOCOL.md:134-143 | each status is sent for exactly the endings the protocol document gives it |
| `UploadIsolation.ActElsewhere` | rust/filedrop-core/src/transfer/server.rs:126-204 | a step of one transfer changes neither file, session, handler nor answers of another |
| `UploadIsolation.ActHere` | rust/filedrop-core/src/transfer/server.rs:139-253 | what a step does to its own transfer depends on nothing else in the world |
| `UploadIsolation.InterleavingIsUnobservable` | rust/filedrop-core/src/transfer/server.rs:97-254 | after any interleaving each transfer is as if its own events and the crashes had run alone |
| `UploadSafety.WriteKeepsHandler` | rust/filedrop-core/src/transfer/server.rs:197-203 | accepting a chunk keeps file, running digest, both counters and resume point in step; everything accepted before it is in the file by then |
| `UploadSafety.VerifyKeepsHandler` | rust/filedrop-core/src/transfer/server.rs:223-246 | the digest compared, in memory or re-read, is always the digest of the staged file |
| `UploadSafety.StepKeepsInv` | rust/filedrop-core/src/transfer/server.rs:97-254 | every step of every transfer keeps the invariant of all transfers and the soundness of the log |
| `UploadSafety.RunKeepsInv` | rust/filedrop-core/src/transfer/server.rs:97-254 | so does every run |
| `UploadTheorems.CompleteMeansPublishedAndVerified` | rust/filedrop-core/src/transfer/server.rs:176-253 | in any run, malformed and resumed requests included, a 200 answers a request that was accepted and then published under its own name, with bytes hashing to its digest header |
| `UploadTheorems.ReceivedChangesOnlyByRename` | rust/filedrop-core/src/transfer/server.rs:206-252 | no step of a reachable state, crashes included, touches the received directory except the rename after the length and digest checks, which moves one file to one name |
| `UploadTheorems.ReplyDecidesWhatRemains` | rust/filedrop-core/src/transfer/server.rs:180-254 | each kind of answer decides what is left: a mismatch or observed cancel removes the part, other failures keep it; a 206 leaves all that was received, a failed flush lacks some of the last chunk, a failed write leaves all that had landed and some prefix of the rest; sessions outlive only flush, re-hash and rename failures |
| `UploadControl.CountersFollowTheFile` | rust/filedrop-core/src/transfer/server.rs:163-204 | in every reachable state status count and `written` are resume offset plus bytes received modulo 2^64; the file is what was found overwritten by those bytes less the ones still pending, of which there are none once the length is checked |
| `UploadStatus.StatusAfterEnding` | rust/filedrop-core/src/transfer/server.rs:72-91 | after a request ended, by an answer, a drop or a crash, the endpoint knows the transfer iff it was dropped or flush, re-hash or rename failed; it then reports resume point plus bytes accepted |
| `UploadStatus.StatusUnknownAfterPartial` | rust/filedrop-core/src/transfer/server.rs:206-250 | the same told from the answer; after a 206 or a broken stream the endpoint answers 404 |
| `UploadStatus.CanResumeIff` | rust/filedrop-core/src/transfer/server.rs:147-210 | the reported count lies within the part iff the file was not yet renamed away (or is empty) and what was found, or what reached the file, goes as far as was counted |
| `UploadStatus.HonestCanResumeIff` | rust/filedrop-core/src/transfer/server.rs:206-253 | for an honest sender iff the request did not end between rename and answer and everything counted reached the file or the part had been that long before; after a failed flush something never did |
| `UploadStatus.PartSince` | rust/filedrop-core/src/transfer/server.rs:141-254 | what becomes of a part between two moments without a new request: gone if renamed, removed or truncated, otherwise as long as what had landed and what lands |
| `UploadStatus.HeardUsableIff` | rust/filedrop-core/src/transfer/server.rs:72-254 | a count told to an honest sender is good for its later request iff since the answer the part was not taken away, and it held as much then or what was pending has reached it |
| `UploadStatus.FollowingStatusDelivers` | rust/filedrop-core/src/transfer/server.rs:72-253 | asking and resuming are separate requests with anything in between; a sender that starts afresh or at a count it heard and that still stands, over any drops, crashes, cuts and errors, delivers exactly its file |
| `UploadDigest.DigestStepDecides` | rust/filedrop-core/src/transfer/server.rs:223-246 | a checksum header spelling the digest of a file lets the part pass iff it hashes alike; otherwise 422, and part and session go |
| `UploadDigest.RequestOutcome` | rust/filedrop-core/src/transfer/server.rs:180-254 | whatever bytes arrive, up to the announced length: they are published with a 200 unless a checksum is sent and the hash tells the result from the file; then 422, nothing published, part gone |
| `UploadStale.ResumeOutcome` | rust/filedrop-core/src/transfer/server.rs:147-253 | whatever the receiver holds, resuming at any count publishes the part with the rest written there, hole and all, with a 200, unless a checksum is sent and the hash tells it from the file: then 422 |
| `UploadStale.ResumeHarmlessIff` | rust/filedrop-core/src/transfer/server.rs:157-161 | that is the file iff the count lies within the part, or the bytes skipped are zeros and something follows |
| `UploadStale.ResumeAtEndIff` | rust/filedrop-core/src/transfer/server.rs:147-253 | resuming at the end against a receiver holding nothing publishes an empty file with a 200, unless a checksum tells the two apart, which is answered 422 |
| `UploadStale.FollowingStatusOverwrites` | rust/filedrop-core/src/transfer/server.rs:248-253 | a run in which a sender follows the count reported after a drop between rename and answer, and its good file is overwritten by an empty one |
| `UploadStale.AnswerOvertaken` | rust/filedrop-core/src/transfer/server.rs:72-91 | a run without any drop: the sender asks while its complete upload is still in hand, the upload is published, and resuming at the answer overwrites it by an empty file |
| `UploadStale.CancelLeavesHole` | rust/filedrop-core/src/transfer/server.rs:188-192 | a run in which the upload is cancelled after the answer, and resuming publishes a file that begins with zeros |
| `UploadStale.FailedFlushShortens` | rust/filedrop-core/src/transfer/server.rs:206-208 | a run in which the last chunk does not reach the file, the endpoint counts it all the same, and resuming publishes the file cut short |
| `UploadCancel.CancelBoundsWrites` | rust/filedrop-core/src/transfer/server.rs:180-204 | after a cancel at most one more chunk is written, the one already past the check, whatever else happens |
| `UploadCancel.CancelSeenIff` | rust/filedrop-core/src/transfer/server.rs:180-192 | in every run and from every stage a cancelled handler answers 499 iff a further chunk reaches it while it waits for one |
| `UploadCancel.CancelMissedIff` | rust/filedrop-core/src/transfer/server.rs:188-253 | in every run and from every stage a cancelled handler publishes iff no further chunk reaches it and it would have published uncancelled |
| `UploadCancel.CancelledOutcome` | rust/filedrop-core/src/transfer/server.rs:180-253 | for all the network and disk can do: a further chunk is answered 499, a broken stream 400, and the end of the body publishes iff flush, length, digest and rename all go well |
| `UploadCancel.ChunkInHandIsWritten` | rust/filedrop-core/src/transfer/server.rs:193-203 | the chunk in hand at the cancel is accepted after any sleep, what came before it is in the file by then, and the handler waits, cancelled |
| `UploadCancel.LateCancelIsIgnored` | rust/filedrop-core/src/transfer/server.rs:180-253 | a cancel between the last chunk and the end of the body leaves the world exactly as without it |
| `UploadCancel.CancelCanComeTooLate` | rust/filedrop-core/src/transfer/server.rs:180-253 | a run from a fresh server in which a file is published and answered 200 after its session was cancelled |
| `UploadCancel.PauseBoundsWrites` | rust/filedrop-core/src/transfer/server.rs:193-203 | while paused and not resumed at most one more chunk is written, the one whose write had begun |
| `UploadCancel.PauseHolds` | rust/filedrop-core/src/transfer/server.rs:193-195 | a handler paused over a chunk goes on holding it until resumed, even if cancelled, and answers nothing |
| `UploadControl.LastRenameWins` | rust/filedrop-core/src/transfer/server.rs:248-253 | after any run the received directory is the original overlaid with the latest publication of each name |
| `UploadControl.ReceivedAsIfAlone` | rust/filedrop-core/src/transfer/server.rs:125-134 | a received file differs from what its transfer alone would have left only if another transfer published the same name |
| `UploadControl.PublishedLengthExact` | rust/filedrop-core/src/transfer/server.rs:147-161 | a published file has the announced length iff the part found had it, or was shorter and the resume point lies before the end |
| `UploadResume.HonestSenderDeliversTheSource` | rust/filedrop-core/src/transfer/server.rs:139-221 | for every file and every run of an honest sender, cut, torn, cancelled, crashed and retried anywhere, the part is a prefix of the file, whatever is published is the file, and no mismatch is reported |
| `UploadResume.AnyChunking` | rust/filedrop-core/src/transfer/server.rs:180-204 | how a body is cut into chunks, and when their bytes reach the file, makes no difference once they have |
| `UploadResume.EndPublishes` | rust/filedrop-core/src/transfer/server.rs:206-253 | the end of a body at the announced length with the right digest takes the world to the one in which the file is published, the traces are gone and the answer is 200, whatever the flags |
| `UploadResume.ReachingTheEndPublishes` | rust/filedrop-core/src/transfer/server.rs:139-253 | the request that reaches the end publishes exactly the file and leaves no part, session or handler, from any honest state and with any chunking |
| `UploadScript.TurnRuns` | rust/filedrop-core/src/transfer/server.rs:180-204 | one pass of the chunk loop, with signals arriving anywhere in it, equals the run of its events |
| `UploadScript.EndingRuns` | rust/filedrop-core/src/transfer/server.rs:206-253 | the end of a request, whichever check or call fails first, equals the run of its events |
| `Server.Server.CheckHeaders` | rust/filedrop-core/src/transfer/server.rs:103-139 | the header checks in order, through the path loop, give the request or the right refusal |
| `Server.Server.Open` | rust/filedrop-core/src/transfer/server.rs:141-178 | opening truncates, keeps or creates the part, registers the session, or refuses, exactly as in the transition system |
| `Server.Server.TakeTurn` | rust/filedrop-core/src/transfer/server.rs:180-204 | one pass of the imperative loop changes maps, session, hasher and cursor exactly as specified |
| `Server.Server.EndOfBody` | rust/filedrop-core/src/transfer/server.rs:206-253 | flush, length, digest, rename and answer, with early returns, change the state exactly as specified |
| `Server.Server.ReceiveTransfer` | rust/filedrop-core/src/transfer/server.rs:97-254 | the whole handler, left alone, takes the world where the run of its events takes it and answers what that run logs last |
| `Client.ProgressReader.PollRead` | rust/filedrop-core/src/transfer/client.rs:126-142 | a poll returns the next bytes, none only at the end, and counts exactly those |
| `Client.StreamBody` | rust/filedrop-core/src/transfer/client.rs:69-80 | the streamed chunks are non-empty, bounded, and concatenate to the rest of the file; the counter grew by their total |
| `Client.SendFile` | rust/filedrop-core/src/transfer/client.rs:48-100 | the request carries name, size, digest of the whole file and resume point, and the body is the rest of the file |
| `Client.SuccessMeans` | rust/filedrop-core/src/transfer/client.rs:107-115 | the client counts as success exactly the complete and the partial answer |
| `Client.HeadersArriveAsMeant` | rust/filedrop-core/src/transfer/client.rs:86-100 | the server reads size, digest, offset and target from the client's headers as they were meant |
| `Client.EndToEnd` | rust/filedrop-core/tests/end_to_end_transfer.rs:14-70 | a client resuming within what is staged leaves exactly its file under the sanitized name, for any file, offset and chunking |
| `Client.CutBodyStaysResumable` | rust/filedrop-core/src/transfer/server.rs:206-221 | a body cut short is answered 206, which the client counts as success; what is kept is the prefix reached, or the longer old part |
| `UploadStale.ResumeAtEndPublishesEmptyFile` | rust/filedrop-core/src/transfer/server.rs:157-161 | resuming at the end against a receiver holding nothing, without a checksum, publishes an empty file with a 200 |
| `Client.RejectedRangeIsFreshUpload` | rust/filedrop-core/src/transfer/server.rs:139-161 | a range header the parser rejects, overflow included, starts exactly the handler a missing one starts: truncated file, offset zero |
| `Queue.WithoutDistinct` | rust/filedrop-core/src/transfer/queue.rs:84-86 | from distinct entries marking removes exactly the one meant |
| `Queue.TransferQueue.Enqueue` | rust/filedrop-core/src/transfer/queue.rs:48-50 | appends at the back |
| `Queue.TransferQueue.Next` | rust/filedrop-core/src/transfer/queue.rs:56-69 | takes a permit and the oldest entry with a fresh session of its id, or changes nothing |
| `Queue.TransferQueue.FindSession` | rust/filedrop-core/src/transfer/queue.rs:75-82 | finds the session of the first active entry with the id, or there is none |
| `Queue.TransferQueue.MarkFinished` | rust/filedrop-core/src/transfer/queue.rs:84-86 | keeps exactly the active entries with other ids, in order |
| `Sending.SendFiles` | rust/filedrop-ffi/src/api/mod.rs:229-262 | queues one entry per readable file up to the first unreadable one, in order: own fresh id, name and size, to be sent, waiting; distinct fresh ids stay distinct; one worker is spawned for each |
| `Sending.RunQueuedSend` | rust/filedrop-ffi/src/api/mod.rs:265-308 | waits for a permit, announces its own transfer and marks it finished, but works with the entry and session of the oldest one; the permit is given back |
| `Scheduler.StepsRunOut` | rust/filedrop-ffi/src/api/mod.rs:229-308 | a measure decreases at every step of every caller and worker |
| `SchedulerProofs.StepKeepsPermits` | rust/filedrop-core/src/transfer/queue.rs:16-57 | held and free permits always add up to three |
| `SchedulerProofs.StepKeepsOrder` | rust/filedrop-core/src/transfer/queue.rs:48-58 | popped followed by pending is the enqueue order, each transfer once |
| `SchedulerProofs.PopFindsSomething` | rust/filedrop-ffi/src/api/mod.rs:273-275 | a worker never finds the queue empty |
| `SchedulerProofs.StepKeepsInv` | rust/filedrop-ffi/src/api/mod.rs:229-308 | every step keeps permits, order, owed pops, distinct entries and event logs |
| `SchedulerProofs.SomethingIsEnabled` | rust/filedrop-ffi/src/api/mod.rs:229-308 | until all are over some step is enabled |
| `SchedulerProofs.QuiescenceIsClean` | rust/filedrop-ffi/src/api/mod.rs:277-307 | at the end nothing is pending, three permits are free, and every enqueued transfer has one start followed by one outcome, every other none |
| `SchedulerProofs.OutcomeTold` | rust/filedrop-ffi/src/api/mod.rs:289-306 | in every run a transfer is announced as completed iff its worker sent it with success and later reported, as failed iff the send failed and was reported |
| `SchedulerProofs.QuiescenceTells` | rust/filedrop-ffi/src/api/mod.rs:265-308 | at the end every enqueued file has been announced once as started and once as its send went, every other not at all |
| `SchedulerProofs.RunKeepsCallOrder` | rust/filedrop-ffi/src/api/mod.rs:229-262 | in every run each call enqueues its files in order, none behind one that could not be read |
| `SchedulerProofs.EveryScheduleCompletes` | rust/filedrop-ffi/src/api/mod.rs:218-308 | for any calls and interleaving: the invariants hold, files are enqueued in call order, runs are at most eleven steps per file, and a run that can go no further is over, with every file announced as it went |
| `SchedulerActive.HandedCallersStayWithinPermits` | rust/filedrop-core/src/transfer/queue.rs:29-37 | in every run of callers that mark what they were handed, each active entry sits on its own permit, active entries plus free permits never exceed three, and none is left at the end |
| `SchedulerActive.SoloRun` | rust/filedrop-ffi/src/api/mod.rs:265-308 | a worker left alone takes the transition system where the worker method by itself takes the queue, with the same announcements |
| `SchedulerActive.StepKeepsOwnMark` | rust/filedrop-ffi/src/api/mod.rs:273-307 | with the actual workers an entry is active from its push until its own worker marks it, or for ever if pushed later |
| `SchedulerActive.OwnMarkingLeavesTheLate` | rust/filedrop-ffi/src/api/mod.rs:273-307 | an entry is left active at the end iff in the run some worker pushes it after its own worker's mark |
| `SchedulerActive.InOrderWorkersLeaveNone` | rust/filedrop-ffi/src/api/mod.rs:273-307 | none is left when workers pop in the order in which their files were enqueued |
| `SchedulerActive.OwnMarkingCanLeak` | rust/filedrop-ffi/src/api/mod.rs:273-307 | a run of two files that ends with an entry still active |
| `SchedulerSessions.SessionFedBy` | rust/filedrop-ffi/src/api/mod.rs:273-290 | the session of an entry counts the file of the worker that came to the queue as early as the entry was enqueued |
| `SchedulerSessions.SessionsCountOwnIff` | rust/filedrop-ffi/src/api/mod.rs:355-362 | every transfer's status counts its own bytes iff the workers come to the queue in the order of enqueueing |
| `SchedulerSessions.SessionsCanMix` | rust/filedrop-ffi/src/api/mod.rs:355-362 | a run in which a session counts the bytes of another transfer's file |
| `Tokens.TokensMatch` | rust/filedrop-core/src/security/token.rs:33-44 | the or-of-exclusive-ors loop answers true iff the texts are equal, for all lengths |
| `Tokens.ValidateTokenFormat` | rust/filedrop-core/src/security/token.rs:18-29 | accepts iff 43 characters, all of the URL-safe alphabet |
| `Tokens.DecodeEncode` | rust/filedrop-core/src/pairing/token.rs:10-14 | decoding undoes the unpadded encoding of any bytes |
| `Tokens.EncodeExact` | rust/filedrop-core/src/pairing/token.rs:10-14 | each character stands for the next six bits, highest first, zeros behind the last byte |
| `Tokens.LetterExact` | rust/filedrop-core/src/pairing/token.rs:10-14 | the URL-safe alphabet: capitals, small letters, digits, minus, underscore, in that order |
| `Tokens.TokensDiffer` | rust/filedrop-core/src/pairing/token.rs:10-14 | different bytes give different tokens |
| `Tokens.GeneratePairingToken` | rust/filedrop-core/src/pairing/token.rs:10-14 | 32 bytes give a token that passes the format check, determines them, and holds their bits six by six |
| `Pairing.PairingStateMachine.CreateRequest` | rust/filedrop-core/src/pairing/state.rs:59-80 | returns and files a pending record with the given name, token and times, replacing any earlier one |
| `Pairing.PairingStateMachine.PresentToken` | rust/filedrop-core/src/pairing/state.rs:85-100 | answers by the whole history: accepted iff the token of the latest request is presented before its expiry, else an invalid-token error; an expired request becomes rejected |
| `Pairing.PairingStateMachine.ConfirmPairing` | rust/filedrop-core/src/pairing/state.rs:104-116 | answers by the whole history: without a request it fails as not found, else it names the state the record then has |
| `Pairing.PairingStateMachine.SweepExpired` | rust/filedrop-core/src/pairing/state.rs:132-140 | the in-place loop rejects exactly the expired unpaired records, in any visiting order |
| `Pairing.PairingStateMachine.IsPairedNow` | rust/filedrop-core/src/pairing/state.rs:122-127 | the live machine answers what the history of all its calls says about the pairing |
| `Pairing.PairedIff` | rust/filedrop-core/src/pairing/state.rs:59-140 | for every timed history: paired iff an existing request was accepted and since then not renewed, rejected, or presented with an expired or matching token |
| `Pairing.AwaitingIff` | rust/filedrop-core/src/pairing/state.rs:37-41 | waiting for the user iff the exact token of the latest request was presented before its expiry and nothing ended the wait |
| `Pairing.RejectedIff` | rust/filedrop-core/src/pairing/state.rs:85-140 | rejected iff refused, or expired when a token was presented or a sweep found it unpaired, with no new request, acceptance or timely token since |
| `Pairing.RecordsComeFromCreates` | rust/filedrop-core/src/pairing/state.rs:59-80 | a record exists iff a request was made; name, token and times are those of the latest one, whatever happened since |
| `Pairing.ExpiryExact` | rust/filedrop-core/src/pairing/state.rs:66-74 | a request expires its lifetime after it was made, modulo 2^64 |
| `Pairing.CreateAnswers` | rust/filedrop-core/src/pairing/state.rs:59-80 | the request returned is the record found afterwards, and what was asked for |
| `Pairing.PresentAnswers` | rust/filedrop-core/src/pairing/state.rs:85-100 | after any history a token is accepted iff it is that of the latest request and in time |
| `Pairing.ConfirmAnswers` | rust/filedrop-core/src/pairing/state.rs:104-116 | after any history a confirmation succeeds iff there is a request, names the state the record then has, and otherwise changes nothing |
| `Pairing.SweepsAreUnobservable` | rust/filedrop-core/src/pairing/state.rs:85-140 | with a non-decreasing clock, removing all sweeps changes no answer, no record left by an operation, and no pairing |
| `Pairing.SweepAbsorbs` | rust/filedrop-core/src/pairing/state.rs:132-140 | a later sweep makes an earlier one irrelevant |
| `History.EnumerationRebuildsMap` | rust/filedrop-core/src/storage/history.rs:54-55 | a list of the map's values in any order loads back to the map |
| `History.PersistIsAtomic` | rust/filedrop-core/src/storage/history.rs:90-101 | wherever a rewrite stops and whatever was left over, a load finds the old contents or exactly the new map |
| `History.MutationIsFound` | rust/filedrop-core/src/storage/history.rs:67-88 | after a completed addition a load finds the old records and the new one, after a completed clear none |
| `History.LaterRecordStands` | rust/filedrop-core/src/storage/history.rs:54-59 | of two records with one id in the file the later stands; all others are as listed |
| `History.LoadFindsLastPersisted` | rust/filedrop-core/src/storage/history.rs:48-101 | for every history of mutations, failed rewrites and restarts, a load finds the map of the last completed rewrite |
| `History.CrashLeavesBeforeOrAfter` | rust/filedrop-core/src/storage/history.rs:67-101 | a crash inside a mutation leaves exactly the map before it or after it, also after any earlier crashes with their restarts |
| `History.BlindRestartLosesHistory` | rust/filedrop-core/src/storage/history.rs:48-60 | a restart whose existence check fails starts empty, and one completed addition then replaces all history by its record |
| `History.RestartKeepsHistoryIff` | rust/filedrop-core/src/storage/history.rs:48-73 | a completed addition after a restart keeps the earlier history iff the file was seen or held nothing else |
| `History.HistoryStore.Load` | rust/filedrop-core/src/storage/history.rs:48-65 | opens with the restored map, or empty if the existence check fails; fails on a file that cannot be read or decoded |
| `History.HistoryStore.PersistAll` | rust/filedrop-core/src/storage/history.rs:90-101 | the rewrite in place, cut anywhere: the history file is untouched until it is replaced by the whole new list, and no temporary file then remains |
| `History.HistoryStore.Add` | rust/filedrop-core/src/storage/history.rs:67-73 | memory always has the record; disk has it iff the rewrite completed |
| `History.HistoryStore.Clear` | rust/filedrop-core/src/storage/history.rs:85-88 | memory is empty; a load finds nothing iff the rewrite completed |
| `History.HistoryStore.List` | rust/filedrop-core/src/storage/history.rs:75-79 | a permutation of the values in descending completion time |

## Left out

- Two POSTs in flight for one transfer id: the code does not serialise them; a second one is ignored by the model.
- Concurrent mutations of one history store: they would share a temporary file; the model takes them one at a time.
- Server.Server.ReceiveTransfer: runs one request without interference; interleaving is the subject of `UploadIsolation`, on the transition system the method is proved to follow.
- File size limits: a seek to 2^63 or beyond fails in the code; the model lets it fail or succeed, and no theorem needs a file that long.
- Late landing: bytes still pending when a handler ends reach the file then or never; that they could land after a later request for the same id has opened it counts as two requests in flight. What the system has accepted is taken to be kept, power failures included.
- Steps inside one action: removing a session and removing the part file happen together, and dropping a handler exactly between the two is not modelled.
- The staging path's text: distinct transfer ids name distinct staging files, which holds because an id's printed form is injective.
- Filename.BeforeTruncationClean: stated for header text (visible ASCII, space, tab), the only names the server passes; non-ASCII names, where truncation can split a character, are not modelled.
- SHA-256 itself, JSON, identifier and token randomness: parameters, as said above.
- Overflow checks of debug builds: 64-bit additions wrap, as in release builds.
- Pause and cancel on the sending side: the client never looks at them.
- File-system errors of the client after opening: a file is readable to its end or not at all.
- Library calls: sorting, number parsing, base64 and path components are modelled by functions with the documented behaviour.
- Discovery, networking, the C interface, event delivery and the Flutter and Kotlin code: input and output around state without hard properties.
- Transfer rates, percentages and timing of the token comparison: display and side channels only.

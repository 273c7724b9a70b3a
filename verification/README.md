# Verification of the SFTP server, mass storage, file copying and clock

This project models the stateful core of the firmware in Dafny and proves what
it promises. It has five parts.

**The SFTP server.** `Sftp.dfy` is the sans-io server of `src/sftp.rs` with its
input and output buffers, streams, handle table, tokens and cached cursors,
updated in place; `Reader.dfy` is its request reader and `SftpDisk.dfy` the
volume it works on, down to cluster chains. It is proved against two
specifications.

The first is exact. `SftpMachine.dfy` says what one unit of work is, one card
access or less, as a function of the state, the cached cursors and the unused
input; `SftpChunks.dfy` says what one card read or write through a cursor does,
stale cursors included. Every step of the server is a number of these units
(`Sftp.Step`), so any two schedules and fragmentations of any byte stream agree
(`SftpDrive.SchedulesAgree`), and every message of any stream of messages gets
one honest reply (`SftpHonest.dfy`).

The second is flat. `SftpVolume.dfy` and `SftpModel.dfy` say what each request
does to a tree of files, `SftpStream.dfy` and `SftpRuns.dfy` what a byte stream
means, and `SftpRequests.dfy` what a list of messages means when each is served
as a whole, all without buffers, polling, card chunks or cursors.
`SftpFollows.dfy` proves that the units do what this reference says, for as long
as no handle is used that has lost its file, and `SftpStale.dfy` when they do beyond
that; `SftpCursors.dfy` and `FatFile.dfy` carry the
invariant behind that, that every cached cursor of a handle that still has its
file is where a walk of the cluster chain would arrive. `SftpProgress.dfy` says
what the volume holds between two units and bounds their number. The requests
themselves are operations on byte sequences and names (`SftpLaws.dfy`,
`SftpWrites.dfy`, `SftpEntries.dfy`, `SftpFrames.dfy`, `SftpTokens.dfy`,
`SftpTrust.dfy`, `SftpRefusals.dfy`).

What all this comes to for a client is stated over bytes alone: `SftpClient.dfy`
writes requests and reads replies as draft-ietf-secsh-filexfer-02 has them, and
`SftpAttrs.dfy`, `SftpHandles.dfy`, `SftpListing.dfy` and `SftpAnswers.dfy` say what
replies tell after which requests: SETSTAT and then STAT, OPEN and then reading and
writing through the handle, OPENDIR and then READDIR to the end, and the others.
`Utf8Text.dfy` is the text a path may be.

**USB mass storage.** `Msc.dfy` has the cache lines, READ(10), WRITE(10) and the
session counter of `src/msc.rs`, proved against a disk without a cache for every
sequence of commands, card changes, attaches and detaches, with hardware failures
anywhere in it; `MscLaws.dfy` says what that disk tells a host.
`UsbEndpoints.dfy` and `SdCard.dfy` are the endpoints and the card, which may
fail at any call. The standard is USB Mass Storage Class Bulk-Only Transport 1.0,
sections 5 and 6.

**Copying.** `CopyJob.dfy` is the stepwise tree copy and `paste` of
`src/filemanager.rs`; `CopyTree.dfy` says which part of a tree a stack of
directory positions stands for.

**Clock.** `Clock.dfy` is the civil calendar and summer time of `src/clock.rs`
over all integers, `FatTime.dfy` its use for FAT timestamps.

**Partition view and scan list.** `SdBlock.dfy` proves `src/sdblock.rs` against a
flat byte array; `WifiScan.dfy` proves the merge of `src/wifi.rs`.

`FatTree.dfy` (trees of named entries, names equal up to ASCII case), `FsPath.dfy`
(paths), `Wire.dfy` (packets) and `Bytes.dfy` are shared.

## What the proofs found

- The target's `usize` has 32 bits and release arithmetic wraps. An oversized
  request whose declared length is 0xFFFFFFFC is answered again and again without
  leaving the buffer (`SftpRequests.EndlessReplies`, `EndlessHeader`), and lengths
  0xFFFFFFFD to 0xFFFFFFFF lose the framing; `SkipExact` says exactly when
  skipping is right. The sum a WRITE header is compared with wraps in the same way
  (`WriteFrameExact`, and `WrappedFrameAccepted` for a concrete frame).
- RENAME lets open handles keep their cursors although the entry they check is
  another one then. OPEN /a, READ its first 8192 bytes, RENAME /a to /A, READ the
  next 8192: the session ends inside the last reply, on a card without errors
  (`SftpStaleSession.RenamedReadEnds`). After a RENAME of a file to its own name or
  another case of it, a READ through a handle opened before fails exactly when the
  handle has a cursor saved for its offset, and a WRITE that nothing else refuses
  fails with "SD write failed", storing nothing, exactly when it goes to the end of
  the file and the handle has a tail saved for that size (`SftpStale.RenamedRead`,
  `RenamedWrite`).
- In any state a session comes to, a unit of a READ sends the file's bytes, and a
  unit of a WRITE stores what a write without cursors stores, whatever a stale cursor
  would give, if and only if no saved cursor is used or the one that is passes its checks
  and its cluster is where it says it is; a READ cursor that is refused ends the
  session and an append cursor that is refused fails the WRITE
  (`SftpStale.ReadUnitIff`, `WriteUnitIff`). A handle whose file has had neither a
  REMOVE nor a RENAME at or above its path since it was opened meets this
  (`SftpFollows.ServeCoherent`, `SftpStale.ExactHolds`). The others are on record in
  `lost` until CLOSE; the flat reference stops where one of them is read or written
  through (`SftpRuns.Stops`). What comes before is promised all the same
  (`SftpFollows.Faithful`, `SftpDrive.TrustedReplies`), and that schedules agree and
  replies are honest holds regardless.
- A request that is refused has changed the volume if and only if it is an OPEN that
  creates or truncates a file and finds no free handle, or a WRITE whose handle
  appends and whose payload passes FAT's limit only after a whole chunk
  (`SftpRefusals.RefusedChanges`). The WRITE leaves its whole chunks below the limit
  in the file (`SftpLaws.RefusedLeaves`; `SftpWitness.RefusedYetLonger` is such a
  session).
- The cache of the mass storage class stays behind a card change only if exactly
  a multiple of 2^32 sessions began between two commands (`BeginCommand`). After a
  failed write a line holds a block as the card does not exactly when it held the
  block before and the card now has another there (`Msc.FailedWriteOutdates`;
  `OutdatedLine` is a case), which is in the write's one chunk, and at most until the
  chunk is written again or the card attached anew (`Msc.MscClass.Session`).

## Model

| member | source | states |
|---|---|---|
| SftpDrive.Session | src/sftp.rs:289-367 | Any messages, in any order of feeding, polling, stepping and sending: what has been sent is whole honest replies to the first messages and at most part of a DATA reply; a server with nothing left to do that has not ended the session has answered every message; and as long as no message goes through a handle that has lost its file, the bytes and the volume are those of serving the messages one by one |
| SftpDrive.SessionLaws | src/sftp.rs:289-367 | The same, wherever any number of units of work have led |
| SftpDrive.Drive | src/sftp.rs:250-367 | Any byte stream and any schedule: what has been sent, what is queued and what is left of the input is where a number of units of the one run of the stream lead, whatever the stream did to the files |
| SftpDrive.SchedulesAgree | src/sftp.rs:289-367 | Two sessions over one stream: the output of one begins the other's, and where neither has anything left to do state, volume, output and unused input are the same |
| SftpDrive.Perform | src/sftp.rs:254-326 | One call of any kind takes the run of the stream some units further or leaves it where it is |
| SftpDrive.ServeAll | src/sftp.rs:284-326 | Polling more often than the stream has units of work leaves the server quiet, everything sent and the volume as the reference says, unless the reference comes to a stale cursor or an endless header |
| SftpDrive.TrustedReplies | src/sftp.rs:289-367 | The replies to the messages before the first that goes through a handle without its file are sent as the reference gives them, whatever comes later |
| SftpDrive.TrustedEnd | src/sftp.rs:289-367 | A quiet session of trusted messages has sent their replies and left their volume |
| SftpDrive.NewSession | src/sftp.rs:221-241 | A new server is in the opening state of the reference, idle, without handles |
| SftpDrive.OpeningExact | src/sftp.rs:221-241 | The opening state is well-formed on every sound volume, and its cursors are exact |
| SftpServer.Sftp.Step | src/sftp.rs:289-326 | A step is a number of units of work that state and unused input alone decide; one that does nothing with the card free and no output pending means the server waits for input it has room for; the card is touched only on a step that spends the one budget of a poll; while a DATA reply or a WRITE is in progress handles, tokens and the stream's slot stay; in the middle of a growth the volume differs by zeros at the end of its file, in the middle of a WRITE with exact cursors by part of the zeros or of the payload |
| SftpServer.Sftp.Work | src/sftp.rs:299-326 | One of the five kinds of work, at most one of which is in progress, as units of work |
| SftpServer.Sftp.Feed | src/sftp.rs:254-259 | Fed bytes are appended to the unused input and change nothing else |
| SftpServer.Sftp.InputSpace | src/sftp.rs:250-252 | Input held and room reported add up to the limit |
| SftpServer.Sftp.ConsumeOutput | src/sftp.rs:265-267 | Takes a prefix of the output and changes nothing else |
| SftpServer.Sftp.BeginPoll | src/sftp.rs:284-286 | Frees the card for one more access and changes nothing else |
| SftpServer.Sftp.constructor | src/sftp.rs:221-241 | The initial fields |
| SftpServer.Sftp.DropSkipped | src/sftp.rs:319-324 | Bytes of an oversized request are dropped as they arrive and nothing after them is |
| SftpHonest.HonestRun | src/sftp.rs:369-442 | After any number of units on a stream of messages: whole honest replies to the first of them, in order, and at most the beginning of a DATA reply that still owes bytes; no condition on the files |
| SftpHonest.HonestEnd | src/sftp.rs:369-442 | Where nothing is left to do and the session has not ended, every message has been answered and all input used |
| SftpHonest.UnitServed | src/sftp.rs:289-367 | Every unit of work keeps that |
| SftpHonest.ReadServed | src/sftp.rs:742-772 | A chunk of a DATA reply brings it closer to the promised length or completes one honest reply; a failed read ends the session inside it |
| SftpHonest.WriteServed | src/sftp.rs:832-909 | A WRITE uses exactly its payload and then answers once, under its own id |
| SftpHonest.GrowServed | src/sftp.rs:1123-1148 | A growing SETSTAT goes on in silence and answers once, under its own id |
| SftpMachine.MicroStays | src/sftp.rs:328-367 | A unit of work that can be done is not changed by bytes that come after it |
| SftpMachine.MicroOk | src/sftp.rs:289-367 | Every unit keeps states well-formed, stale cursors or not |
| SftpMachine.ReachesWith | src/sftp.rs:254-259 | Work that has been done stays done when more input comes |
| SftpMachine.OneOutput | src/sftp.rs:289-367 | Of any two ways a stream has been served so far the output of one begins the other's |
| SftpMachine.OneEnd | src/sftp.rs:289-367 | Where nothing is left to do every way has come to the same state, output and rest |
| SftpMachine.WaitingHasRoom | src/sftp.rs:91-101 | A session that waits for input holds less than the input limit |
| SftpMachine.StreamKeepsHandles | src/sftp.rs:742-909 | While a DATA reply or a WRITE is in progress its slot keeps the handle it started on, and all tokens stay |
| SftpMachine.GrowExact | src/sftp.rs:1123-1148 | A growth writes through a cursor of its own that is always exact |
| SftpStale.ReadUnitIff | src/sftp.rs:742-772 | A unit of a DATA reply sends the file's bytes, whatever stale cursors give, if and only if no saved cursor is used or the one that is passes its checks and stands at its position; one that is refused ends the session inside the reply |
| SftpStale.WriteUnitIff | src/sftp.rs:832-909 | A unit of a WRITE stores what a write without cursors stores, or is refused as that would be, whatever comes of stale cursors, if and only if no saved tail is used or the one that is passes its checks and stands at the end; one that is refused fails the WRITE and stores nothing |
| SftpStale.NoFileUnit | src/sftp.rs:853-897 | Where the path leads to no file a unit of a WRITE is refused as it is without cursors |
| SftpStale.ReadIff | src/sftp.rs:1223-1247 | The same of one chunk read through a handle |
| SftpStale.WriteIff | src/sftp.rs:1250-1295 | The same of one chunk written through a handle |
| SftpStale.RenamedRead | src/sftp.rs:976-1004 | After a RENAME to the same name or another case of it, a read through a handle with exact cursors gives nothing if it resumes from the saved one, and the file's bytes otherwise |
| SftpStale.RenamedWrite | src/sftp.rs:976-1004 | A write through such a handle fails and stores nothing if it resumes from the saved tail, and is the flat write otherwise |
| SftpStale.RenamedFile | vendor/hadris-fat/src/write.rs:2132-2185 | The renamed file is where its handles look for it, under another identity |
| SftpStale.ExactHolds | vendor/hadris-fat/src/read.rs:140-165 | Exact cursors meet both conditions, wherever the handle reads or writes |
| SftpStale.MicroTracked | src/sftp.rs:1239-1246 | No unit of work saves a read cursor for another position than its own, stale or not |
| SftpStale.SessionTracked | src/sftp.rs:221-241 | So it is in every state of every session |
| SftpStaleSession.RenamedReadEnds | src/sftp.rs:976-1004 | A concrete card, session and run: OPEN, READ, RENAME to another case, READ; the last reply has its header and no payload, the session has ended, and the file is all there |
| SftpFollows.MicroFollows | src/sftp.rs:289-367 | Until a stale cursor would be used or a header answered without end, a unit keeps every cursor exact and the outcome of the stream as it was |
| SftpFollows.ServeCoherent | src/sftp.rs:387-410 | No request leaves an inexact cursor in a handle that still has its file |
| SftpFollows.Faithful | src/sftp.rs:289-367 | However a stream is served, the reference says what comes of it: exactly if it comes to no stale cursor and no endless header itself, and up to there in any case |
| SftpFollows.FaithfulEnd | src/sftp.rs:289-367 | Where nothing is left to do, all the reference promises has happened |
| SftpFollows.ReadFollows | src/sftp.rs:742-772 | With exact cursors a chunk is the file's bytes at the offset, and the session does not end |
| SftpFollows.WriteFollows | src/sftp.rs:832-909 | A unit of a WRITE with exact cursors stores what one store of the chunk would |
| SftpFollows.GrowFollows | src/sftp.rs:1123-1148 | A unit of a growth leaves the outcome as it was |
| SftpProgress.MidWrite | src/sftp.rs:832-909 | In every state in the middle of a WRITE: it began at a state of the run, and since then its file has gained part of the zeros or a prefix of the payload, and nothing else has changed |
| SftpProgress.MidwayStep | src/sftp.rs:853-897 | Every unit of a WRITE in progress keeps that |
| SftpProgress.MidwayContents | src/sftp.rs:853-897 | Then the file is the old bytes and zeros up to the offset at most, or the payload's prefix laid over them with the tail kept, or appended |
| SftpProgress.MidGrow | src/sftp.rs:1123-1148 | In every state in the middle of a growth its file has gained zeros and nothing else has changed, whatever became of other files |
| SftpProgress.MidGrowthContents | src/sftp.rs:1123-1148 | Then the file is the old bytes and zeros, up to the new size at most |
| SftpProgress.RunsEnd | src/sftp.rs:289-367 | A run that comes to no stale cursor and no endless header is at most as many units long as its bytes, promised payload and gaps allow |
| SftpProgress.UnitShrinks | src/sftp.rs:289-367 | Every unit uses input or leaves less to do |
| SftpServer.Sftp.ParseNext | src/sftp.rs:328-367 | Takes the next request, WRITE header or oversized request as the reference does, or waits, or ends the session on a zero length |
| SftpServer.Sftp.ParseWrite | src/sftp.rs:342-344 | The WRITE branch |
| SftpServer.Sftp.ParseOversized | src/sftp.rs:345-357 | The oversized branch: one unit for the answer and one for every byte dropped at once |
| SftpServer.Sftp.ServePacket | src/sftp.rs:358-366 | A complete packet leaves the buffer and is dispatched |
| SftpServer.Sftp.HandlePacket | src/sftp.rs:369-414 | INIT is answered with VERSION, a body without an id ends the session, everything else goes to its handler and errors become STATUS replies; cursors are kept or forgotten as the reference says |
| SftpServer.Sftp.HandleRequest | src/sftp.rs:392-410 | Each packet type is handled as the reference says, in state, reply bytes and cached cursors |
| SftpServer.Sftp.InvalidateFile | src/sftp.rs:1046-1055 | Every handle on the path, and no other, forgets its cursors |
| SftpServer.Sftp.InvalidateWritten | src/sftp.rs:1057-1071 | The written handle keeps its tail and others on the file forget everything |
| SftpServer.Sftp.OpenExisting | src/sftp.rs:650-668 | An existing entry: directory, exclusive, read-only, truncated (cursors forgotten) or as it is |
| SftpServer.Sftp.Settle | src/sftp.rs:1110-1120 | Shrinking and attributes at once; handles on the file forget their cursors |
| SftpServer.Sftp.RenameAt | src/sftp.rs:976-1004 | RENAME: checks in order; an entry may be renamed to its own name or another case of it; handles at or below the old name are on record as having lost their file |
| SftpDisk.Disk.Rename | vendor/hadris-fat/src/write.rs:2110-2140 | A name FAT refuses, then another entry in the way, then the entry under its new name in another directory slot, perhaps one that was used before, and its old name gone |
| SftpDisk.Disk.Create | vendor/hadris-fat/src/write.rs:1619-1640 | A name FAT refuses, then an entry in the way, then a new entry |
| SftpServer.Sftp.ContinueRead | src/sftp.rs:742-772 | One chunk of a DATA reply of the length the reader gives, or the end of the session |
| SftpServer.Sftp.ContinueWrite | src/sftp.rs:832-909 | Waits for a full chunk or the tail; else fills part of a gap, stores a chunk, drops one after a failure, and replies at the end |
| SftpServer.Sftp.NextChunk | src/sftp.rs:837-899 | The next chunk, unless more of it has to come or the card is taken: then nothing changes |
| SftpServer.Sftp.TakeChunk | src/sftp.rs:853-897 | One chunk of payload, or zeros for part of the gap before it, or a refusal, as the reference unit says |
| SftpServer.Sftp.StoreQueued | src/sftp.rs:853-897 | A stored chunk leaves the queue, a gap leaves it there |
| SftpServer.Sftp.DropChunk | src/sftp.rs:898-899 | After a failure the payload is dropped |
| SftpServer.Sftp.FinishWrite | src/sftp.rs:900-908 | The late reply of a WRITE |
| SftpServer.Sftp.WriteThrough | src/sftp.rs:882-897 | One card write and what every handle keeps of its positions |
| SftpServer.Sftp.ContinueResize | src/sftp.rs:1123-1148 | One unit of a growing SETSTAT |
| SftpServer.Sftp.GrowChunk | src/sftp.rs:1131-1136 | A chunk of zeros at the end of the file, or the refusal as the reply |
| SftpServer.Sftp.FinishGrowing | src/sftp.rs:1137-1147 | The attributes at the end of the growth, and the reply |
| SftpDisk.ReadChunk | src/sftp.rs:1223-1247 | Resumes from the saved cursor or walks to the offset, and remembers where the reader stopped |
| SftpDisk.WriteChunk | src/sftp.rs:1250-1295 | Refusals in order, then the writer and the new tail cursor, whatever the cursor was |
| SftpDisk.OpenWriter | src/sftp.rs:1268-1279 | From the tail cursor if it passes its checks, from a walk to the end or from a walk to the offset |
| SftpDisk.Disk.WriteAndFinish | vendor/hadris-fat/src/write.rs:377-690 | A writer that stands where it counts commits the flat write, and its cursor is the new tail |
| SftpDisk.Disk.OpenDirPath | src/fspath.rs:52-61 | Descending by components finds exactly the directories |
| SftpDisk.Disk.FindEntry | src/fspath.rs:64-72 | Finds exactly the entry at parent and leaf |
| SftpChunks.ReadExact | src/sftp.rs:1223-1247 | With exact cursors a chunk is the file's bytes at the offset, at least one, and the cursors stay exact |
| SftpChunks.WriteExact | src/sftp.rs:1250-1295 | With exact cursors a chunk is refused or is the flat write with the tail kept, and the cursors stay exact |
| SftpChunks.WriteKeepsTree | src/sftp.rs:1250-1295 | Whatever a write does, through a stale cursor too, the volume stays sound |
| SftpRuns.RunInParts | src/sftp.rs:289-367 | In the reference, serving a stream is serving a part and then the rest with what the part left over, for every cut |
| SftpRuns.NextStays | src/sftp.rs:328-367 | Work that can be done is not changed by bytes that come later |
| SftpRuns.RunUnit | src/sftp.rs:289-326 | One unit of work taken early leaves the outcome as it was |
| SftpRuns.RunSkip | src/sftp.rs:319-324 | Skipping what is there and the rest later is skipping all |
| SftpRuns.ReadContinues | src/sftp.rs:752-765 | Reading any part of a promised payload leaves the outcome as it was |
| SftpRuns.GapContinues | src/sftp.rs:870-882 | Filling part of a gap leaves the outcome as it was |
| SftpRuns.FailedContinues | src/sftp.rs:862-866 | An error found before the chunk is taken is the one the WRITE ends with |
| SftpRuns.GrowthContinues | src/sftp.rs:1131-1136 | Growing part of the way leaves the outcome as it was |
| SftpRuns.Run | src/sftp.rs:289-367 | Serving any stream ends, in a well-formed state |
| SftpStream.NextKeepsHandles | src/sftp.rs:742-909 | In the reference too a stream keeps its slot, and the handles and tokens stay |
| SftpStream.ServeOk | src/sftp.rs:387-410 | Every request keeps states well-formed: a promised read lies inside its file, a growth has a valid target, and only READ starts a DATA reply |
| SftpRequests.StreamIsConversation | src/sftp.rs:328-414 | The output for a stream of trusted messages is the concatenation of their replies, with nothing left over |
| SftpRequests.ConversationThen | src/sftp.rs:328-414 | Trusted messages and any bytes after them: their replies, then whatever those bytes lead to |
| SftpRequests.RepliesInOrder | src/sftp.rs:369-442 | The i-th reply is one honest frame with the i-th message's id, or VERSION for INIT |
| SftpRequests.OneReply | src/sftp.rs:369-442 | Every message gets exactly one reply, late replies of WRITE and growing SETSTAT and streamed DATA included |
| SftpRequests.RunMessage | src/sftp.rs:328-414 | A message and what follows it: its reply, then whatever follows |
| SftpRequests.RunOversized | src/sftp.rs:345-357 | An oversized request costs its own bytes and nothing else |
| SftpRequests.SkipExact | src/sftp.rs:345-357 | An oversized request is skipped exactly if and only if its declared length is at most 2^32 - 5, and is endless if and only if it is 2^32 - 4 |
| SftpRequests.EndlessReplies | src/sftp.rs:345-357 | An endless header is answered any number of times, and the input stays |
| SftpRequests.EndlessHeader | src/sftp.rs:345-357 | A concrete one |
| SftpRequests.WriteFrameExact | src/sftp.rs:799-802 | A WRITE uses exactly its declared frame if and only if its fields do not add up past 32 bits |
| SftpRequests.WrappedFrameAccepted | src/sftp.rs:774-830 | A concrete WRITE that declares 24 bytes, uses 29 and takes the next 2^32 - 1 as its payload |
| SftpRequests.NoneLost | src/sftp.rs:742-909 | Without handles that lost their file every message can be trusted |
| SftpTrust.NothingRemoved | src/sftp.rs:911-1004 | A session that has lost no file and removes and renames nothing is trusted throughout |
| SftpTrust.ServeLost | src/sftp.rs:699-706 | CLOSE takes its own handle off the record, and no request but removing and renaming adds to it |
| SftpRefusals.RefusedChanges | src/sftp.rs:328-414 | A refused request has changed the volume if and only if it is an OPEN that creates or truncates a file and finds no free handle, or a WRITE that appends past the limit after a whole chunk |
| SftpRefusals.OpenChanges | src/sftp.rs:634-697 | OPEN changes the volume exactly when it cuts a file to nothing or makes one, and is refused all the same exactly when no handle is free |
| SftpRefusals.ServeChanges | src/sftp.rs:387-410 | No complete request but OPEN is refused after it has changed the volume |
| SftpLaws.RefusedLeaves | src/sftp.rs:832-909 | A refused WRITE changes the volume if and only if its handle appends to a writable file and the payload passes the limit only after a whole chunk; then the whole chunks below the limit stay |
| SftpLaws.AppendStopsAtLimit | src/sftp.rs:832-909 | Chunk after chunk is appended until one would pass the limit |
| SftpWitness.RefusedYetLonger | src/sftp.rs:832-909 | A concrete card, session and message: the WRITE is refused as too large and the file is 8192 bytes longer |
| SftpEntries.RenameLaw | src/sftp.rs:976-1004 | RENAME succeeds exactly when source and target directory are there, the name is one FAT takes, and the target is free or the source itself; otherwise nothing changes |
| SftpEntries.RenameMoves | vendor/hadris-fat/src/write.rs:2110-2240 | The target then holds what the source held, and all that was below it |
| SftpEntries.RenameSpells | vendor/hadris-fat/src/write.rs:2110-2240 | Under the new name as it was spelled |
| SftpEntries.RenameLeavesNothing | vendor/hadris-fat/src/write.rs:2110-2240 | Nothing is left at the source, unless the target is the same name in another case |
| SftpEntries.RemoveServes | src/sftp.rs:911-928 | REMOVE takes away exactly a writable file, and then its path leads nowhere |
| SftpEntries.RmDirServes | src/sftp.rs:957-974 | RMDIR takes away exactly an empty directory |
| SftpEntries.MkDirLaw | src/sftp.rs:930-955 | MKDIR makes an empty directory exactly where nothing was, with the attributes asked for |
| SftpEntries.OpenLaw | src/sftp.rs:650-681 | After an OPEN that works there is a file: as it was, cut to nothing with its identity, or new and empty with the attributes asked for |
| SftpEntries.FilesKept | src/sftp.rs:387-410 | A request, served to its end, changes no file it does not name |
| SftpEntries.WriteKeeps | src/sftp.rs:866-890 | A WRITE changes no file but its handle's |
| SftpFrames.OtherFilesKept | src/sftp.rs:387-410 | A request takes away no file but those it removes or renames, and changes none but the one it rewrites |
| SftpCursors.CoherentAfterWrite | src/sftp.rs:1057-1071 | After a write through one handle every cached cursor is still exact |
| SftpCursors.CoherentAfterPutFile | src/sftp.rs:1046-1055 | After any change of a file whose handles forgot their cursors every cached cursor is exact |
| SftpCursors.FileAfterRemoved | src/sftp.rs:911-928 | Removing an entry changes no file elsewhere |
| SftpCursors.FileAfterAdded | src/sftp.rs:669-681 | Creating an entry changes no file |
| Msc.MscClass.Session | src/msc.rs:501-532 | Over every sequence of attach, detach, card changes and commands in which the session counter does not wrap, faults included: every READ(10) that passes returns the card's blocks of that moment except in chunks of writes that failed since the last attach, every WRITE(10) leaves what it committed and may have torn, and nothing else changes the card; without faults data, status, sense and card are those of a disk without a cache |
| Msc.MscClass.Execute | src/msc.rs:501-532 | One command, with those promises; what the disk answers is MscLaws.EjectedAnswers and LoadedAnswers |
| Msc.MscClass.WriteBlocks | src/msc.rs:761-828 | WRITE(10) takes exactly the transfer length from the host on every Passed or Failed outcome; the residue is the length less the blocks known committed; on every outcome, phase errors included, the committed blocks are the host's and only blocks of one failed chunk may differ and are doubtful |
| Msc.MscClass.WriteRounds | src/msc.rs:788-827 | The committed blocks are the host's, in order, however the loop ends |
| Msc.MscClass.Find | src/msc.rs:245-250 | The line that holds a block, if any, stamped most recently used; nothing else changes |
| Msc.MscClass.SendData | src/msc.rs:830-847 | The answer is cut to what was asked and, if it passes, sent in full; when less than asked is sent the last packet is shorter than 64 bytes; sent and residue add up |
| SdBlock.SdBlockDevice.Replay | src/sdblock.rs:154-255 | Any sequence of seeks, reads and writes on a card that may fail at any of them: each acts on a flat byte array, or is refused, keeps the position and reads nothing or writes part of its data, and the next goes on from there; nothing outside the partition changes |
| SftpClient.Understood | src/sftp.rs:387-410 | Every request the server knows, written by a client as the protocol has it, is parsed as that request with its fields |
| SftpClient.SentServed | src/sftp.rs:328-414 | The whole message is served as that request |
| SftpClient.WriteRead | src/sftp.rs:774-803 | Handle, offset and data of a WRITE as a client sends it are what the server takes |
| SftpClient.PathExact | src/sftp.rs:1452-1478 | What is read as a string is a length and as many bytes and nothing else; a path is accepted if and only if it is text without NUL |
| Utf8Text.Utf8Exact | src/sftp.rs:1475-1478 | Text is accepted if and only if it is the UTF-8 encoding of some sequence of Unicode scalar values |
| SftpAttrs.StorableExact | src/sftp.rs:1307-1337 | Attributes are refused if and only if they have an owner, a size of 4 GiB or more, or a time whose local year FAT has no date for; the code for an owner or a time is 8 |
| SftpAttrs.StatTells | src/sftp.rs:517-537 | The words of the reply to STAT: the root's, status 2 for a missing entry, or size, mode, access and modification time of the entry |
| SftpAttrs.SetStatTold | src/sftp.rs:1073-1148 | SETSTAT is answered OK if and only if the attributes can be stored, the entry is there and not the root, and a size is for a file that is writable or already has it; otherwise nothing changes |
| SftpAttrs.SetThenStat | src/sftp.rs:1339-1417 | SETSTAT and then STAT over messages: the reply to STAT holds the size asked for, the modification time rounded down to an even second and an hour early in the autumn hour, an access time on the local date asked for, and a mode without write bits exactly when 0222 was clear; what was not asked for is told as before |
| SftpAttrs.MakeThenStat | src/sftp.rs:930-955 | The same of MKDIR, with the exact condition for it, and a directory that is empty |
| SftpHandles.HandleKept | src/sftp.rs:459-490 | A file handle keeps path and rights through any messages but a CLOSE of its token |
| SftpHandles.OpenGives | src/sftp.rs:634-697 | OPEN is answered with a handle if and only if the attributes can be stored, a handle is free, and the flags open the file there (no CREAT with EXCL, no WRITE of a read-only one) or make one (WRITE and CREAT); then the file holds what it held, or nothing if it is new or WRITE and TRUNC were asked for |
| SftpHandles.CreateThenStat | src/sftp.rs:669-681 | OPEN that makes a file and then STAT: size 0 and the attributes asked for |
| SftpHandles.WriteThrough | src/sftp.rs:774-909 | With the token of the reply to OPEN, any messages but its CLOSE later: a WRITE is refused if and only if OPEN was not asked for WRITE or range or file forbid it; otherwise the file at the path OPEN was given holds its old bytes and the data with APPEND, the data laid over them without, and no other file changes |
| SftpHandles.ReadThrough | src/sftp.rs:708-772 | In the same way a READ is refused if and only if OPEN was asked for WRITE and not for READ, or nothing is there; otherwise the reply holds the bytes of the file at that path |
| SftpHandles.AskThrough | src/sftp.rs:539-558 | FSTAT and fstatvfs through the handle are answered like STAT and statvfs of that path, and fsync with OK |
| SftpHandles.SetThrough | src/sftp.rs:1030-1044 | FSETSTAT through it does what SETSTAT of that path does, and a size is refused with status 3 without WRITE |
| SftpListing.OpenDirGives | src/sftp.rs:560-577 | OPENDIR is answered with a handle if and only if a directory is there and a handle is free |
| SftpListing.OpenThenList | src/sftp.rs:560-632 | OPENDIR and READDIR until the end over messages: the lines of the replies are the entries of the directory at that path, name, text and attributes, each once and in order, 1 to 24 at a time and as many as fit, and then status 1 |
| SftpAnswers.RemoveTold | src/sftp.rs:911-928 | REMOVE is answered OK if and only if a writable file is there, 2 if nothing is and 3 if it is read-only; after OK nothing is there |
| SftpAnswers.RmDirTold | src/sftp.rs:957-974 | RMDIR is answered OK if and only if an empty directory other than the root is there; after OK nothing is there |
| SftpAnswers.RenameTold | src/sftp.rs:976-1004 | RENAME is answered OK if and only if it can be done; after OK the entry with all it holds is at the new path and, unless that differs in case alone, nothing at the old one |
| SftpAnswers.CloseTold | src/sftp.rs:699-706 | CLOSE is answered OK if and only if the token is that of an open handle; then it is refused, and other handles stay as they are |
| SftpAnswers.WrongHandleTold | src/sftp.rs:472-490 | A request through a token of no open handle, or through a handle of the wrong kind, is answered 4 and changes nothing |
| SftpAnswers.RealPathTold | src/sftp.rs:492-503 | The reply to REALPATH holds, twice, an absolute path without empty, dot and dot-dot components that leads where the path asked for leads |
| SftpAnswers.StatVfsTold | src/sftp.rs:1172-1208 | The eleven words of the reply to statvfs, and the status where there is none |
| SftpAnswers.LimitsTold | src/sftp.rs:1153-1163 | The four words of the reply to limits |
| SftpAnswers.VersionTold | src/sftp.rs:369-385 | INIT is answered with version 3 and four named extensions |
| SftpAnswers.UnreadTold | src/sftp.rs:345-414 | Unknown types are answered 8, paths that are not text and messages that are too long 5, and nothing changes |
| SftpAnswers.FirstUnit | src/sftp.rs:328-367 | Between messages the session ends if and only if the next header is empty, a WRITE with a handle over 64 bytes or fields that do not add up to it, or too short for an id; and waits if and only if header or packet are incomplete, or the header is the endless one |
| FsPath.ResolvedBehind | src/fspath.rs:19-36 | Behind any path "/.." takes the last component away, if there is one, "/." and "/" none, and a slash and a name add one |
| FsPath.ResolvedOn | src/fspath.rs:19-36 | A path without a leading slash, put behind a slash after another, is resolved from where that one leads |
| FsPath.ResolvedFromRoot | src/fspath.rs:19-36 | A leading slash starts from the root |
| FsPath.ResolvedUp | src/fspath.rs:19-36 | ".." leads one component up, and at the root nowhere else |
| FatTree.SameNameExact | src/fspath.rs:64-72 | Names match byte for byte or in letters that differ in case alone |
| MscLaws.EjectedAnswers | src/msc.rs:545-570 | After events whose last attach, detach, eject or load is an eject, or a detach: TEST UNIT READY fails, and no READ(10) or WRITE(10) of one or more blocks passes |
| MscLaws.LoadedAnswers | src/msc.rs:545-828 | After an attach, or a load while a card is attached, as the last of these: TEST UNIT READY passes, READ CAPACITY tells the last block, and READ(10) in range passes with the card's blocks |
| MscLaws.AfterEject | src/msc.rs:559-570 | After an eject the disk has no blocks for the host |
| MscLaws.AfterLoad | src/msc.rs:143-165 | After an attach or a load it has all of the card |
| MscLaws.ToldIsLast | src/msc.rs:501-532 | These are the answers of the session: the last one of all events |
| MscLaws.WriteReadBack | src/msc.rs:681-828 | What a WRITE(10) that passed took, READ(10) of the same blocks gives back |
| MscLaws.SenseLaw | src/msc.rs:571-584 | REQUEST SENSE tells the last failure at its offsets, and only once |
| MscLaws.FailuresSensed | src/msc.rs:534-570 | Key and code of each refusal |
| CopyTree.TotalsCounted | src/filemanager.rs:720-800 | The totals a finished copy shows are the number of files of the source and of the bytes in them |
| CopyTree.DepthReached | src/filemanager.rs:745-760 | The depth a copy is limited by is reached by a directory of the source |
| CopyTree.DepthBounds | src/filemanager.rs:745-760 | No directory of the source lies deeper |
| Clock.SummerMonths | src/clock.rs:102-120 | Summer time over civil dates: from the last Sunday of March, 01:00 UTC, to the last Sunday of October, 01:00 UTC |
| Clock.KnownDays | src/clock.rs:122-146 | Day 0 is 1 January 1970, and 31 March 2024 is a Sunday |
| Clock.LocalShown | src/clock.rs:41-98 | The local clock is ahead of UTC by its offset in minutes and by an hour more in summer, for every instant and offset, into the next day or back into the last |
| SdBlock.EntryReads | src/sdblock.rs:84-102 | A table entry written by its fields, 16 bytes from byte 446 on, is read with its start and length, and is usable if and only if type and length are not zero |
| SdBlock.SignatureRead | src/sdblock.rs:80-83 | The table is signed by 0x55 0xAA at byte 510 |
| SdBlock.SeekReads | src/sdblock.rs:244-255 | However byte k is named, reading on from there gives the bytes from k on |
| SftpServer.Sftp.RejectOversized | src/sftp.rs:345-357 | The reply, the bytes dropped at once and the bytes left to skip |
| SftpServer.Sftp.Unknown | src/sftp.rs:407-409 | Other packet types are refused as unsupported |
| SftpServer.Sftp.BeginWrite | src/sftp.rs:774-830 | The fixed part of a WRITE: waits for it, ends the session on a handle over 64 bytes or fields that do not fill the frame, and otherwise starts the payload, already failed if the handle or the range is wrong |
| SftpServer.Sftp.ValidateWrite | src/sftp.rs:803-820 | Which handle, or which refusal, a WRITE header leads to |
| SftpServer.ParseWriteHeader | src/sftp.rs:791-798 | The four fields of a WRITE header, read one after another |
| SftpServer.WriteHeaderFields | src/sftp.rs:774-798 | Reading the header fields in turn gives the slices at their offsets |
| WireReader.Reader.Take | src/sftp.rs:1452-1459 | A take that fits returns the bytes and advances; one that does not leaves the reader alone |
| WireReader.Reader.U32 | src/sftp.rs:1461-1463 | A big-endian 32-bit word |
| WireReader.Reader.U64 | src/sftp.rs:1465-1467 | A big-endian 64-bit word |
| WireReader.Reader.String | src/sftp.rs:1469-1472 | A length and as many bytes |
| WireReader.Reader.Path | src/sftp.rs:1475-1478 | A string that is UTF-8 without NUL |
| WireReader.Reader.Attrs | src/sftp.rs:1481-1512 | Attributes with their flags, refusing unknown flags and short fields |
| WireReader.Reader.Times | src/sftp.rs:1498-1512 | The times and the extended pairs of attributes |
| WireReader.Reader.Pairs | src/sftp.rs:1501-1507 | Extended pairs are read over, however many are declared |
| SftpServer.Sftp.Begin | src/sftp.rs:420-428 | A placeholder length and the type |
| SftpServer.Sftp.Finish | src/sftp.rs:430-433 | Patches the length, so the reply is one frame |
| SftpServer.Sftp.SendStatus | src/sftp.rs:435-442 | A STATUS frame |
| SftpServer.Sftp.SendHandle | src/sftp.rs:449-455 | A HANDLE frame with the slot's token |
| SftpServer.Sftp.SendVersion | src/sftp.rs:370-385 | The VERSION frame with the four extensions |
| SftpServer.Sftp.PutExtensions | src/sftp.rs:373-381 | The extension pairs in order |
| SftpServer.Sftp.SendDataHeader | src/sftp.rs:725-733 | A DATA header that already counts the payload |
| SftpServer.Sftp.SendWords | src/sftp.rs:1153-1162 | A frame of 64-bit words |
| SftpServer.Sftp.SendNames | src/sftp.rs:626-631 | A NAME frame |
| SftpServer.Sftp.SendCanonical | src/sftp.rs:495-502 | The NAME frame of a REALPATH |
| SftpServer.Sftp.SendAttrs | src/sftp.rs:532-536 | An ATTRS frame |
| SftpServer.Sftp.Allocate | src/sftp.rs:459-469 | The first free slot under the next generation, or a refusal when all are in use |
| SftpServer.Sftp.FindFree | src/sftp.rs:460-464 | The first free slot |
| SftpServer.Sftp.SlotOf | src/sftp.rs:472-481 | The slot a handle string stands for, exactly while that handle is open |
| SftpServer.Sftp.RealPath | src/sftp.rs:492-503 | REALPATH answers the canonical path twice |
| SftpServer.Sftp.StatComponents | src/sftp.rs:517-537 | Attributes of the root or of the entry, or a refusal |
| SftpServer.Sftp.StatPath | src/sftp.rs:505-515 | STAT and LSTAT |
| SftpServer.Sftp.FStat | src/sftp.rs:539-558 | FSTAT |
| SftpServer.Sftp.OpenDirAt | src/sftp.rs:560-577 | OPENDIR of a directory, a file, or nothing |
| SftpServer.Sftp.ReadDirAt | src/sftp.rs:579-632 | One READDIR: the next entries of the directory, or its end |
| SftpServer.NextNames | src/sftp.rs:590-620 | One pass over the records skips the dot entries and what was sent, and takes what fits |
| SftpServer.Sftp.OpenAt | src/sftp.rs:634-697 | OPEN: checks in order, truncation, creation with attributes, and a handle |
| SftpServer.Sftp.OpenCreated | src/sftp.rs:669-681 | A new file with its first attributes |
| SftpServer.Sftp.OpenHandle | src/sftp.rs:682-696 | The handle of an OPEN; what its flags are good for is SftpHandles.WriteThrough and ReadThrough |
| SftpServer.Sftp.Close | src/sftp.rs:699-706 | CLOSE frees exactly the handle's slot |
| SftpServer.Sftp.ReadAt | src/sftp.rs:708-740 | READ: end of file, or a header that promises the length and a stream that owes it |
| SftpServer.Sftp.RemoveAt | src/sftp.rs:911-928 | REMOVE of a writable file |
| SftpServer.Sftp.MkDirAt | src/sftp.rs:930-955 | MKDIR with attributes |
| SftpServer.Sftp.RmDirAt | src/sftp.rs:957-974 | RMDIR of an empty directory |
| SftpServer.Sftp.ApplyMetadata | src/sftp.rs:1339-1364 | Times and the read-only bit of an entry, and nothing else of it; what STAT then tells is SftpAttrs.SetThenStat |
| SftpServer.Sftp.ApplySetStat | src/sftp.rs:1073-1121 | SETSTAT: refusals, immediate shrinking, or a growth that answers later |
| SftpServer.Sftp.FSetStatAt | src/sftp.rs:1030-1044 | FSETSTAT through a handle |
| SftpServer.Sftp.FSync | src/sftp.rs:1164-1173 | fsync of a file handle |
| SftpServer.Sftp.StatVfs | src/sftp.rs:1182-1208 | statvfs, refused when the free count is unknown or impossible |
| SftpServer.Sftp.Extended | src/sftp.rs:1150-1211 | The four extensions, and others refused |
| SftpStream.NextOk | src/sftp.rs:328-367 | Every unit of work keeps states well-formed and uses input or comes closer to idle |
| SftpReplies.ServeAnswers | src/sftp.rs:387-414 | Every request is answered by one frame with its id, a DATA header, or a growth with its id, and the reply fits the output buffer |
| SftpReplies.DispatchAnswers | src/sftp.rs:369-414 | The same for any packet |
| SftpReplies.RealPathAnswers | src/sftp.rs:492-503 | REALPATH of the longest request fits the output buffer |
| SftpReplies.NamesSize | src/sftp.rs:590-620 | A READDIR reply stays within the byte budget and one entry |
| SftpReplies.DataIsReply | src/sftp.rs:725-733 | A DATA header and the payload it promised are one honest frame |
| SftpReplies.VersionIsReply | src/sftp.rs:370-385 | VERSION is one honest frame |
| SftpLaws.WriteLaw | src/sftp.rs:832-909 | The status of a WRITE is that of one store of the whole payload, and OK means the volume holds that store's result |
| SftpWrites.PayloadIsOneStore | src/sftp.rs:832-909 | Chunk after chunk a payload is stored, or refused with the same status, as one store of all of it would be |
| SftpWrites.StoredContents | src/sftp.rs:866-890 | A store leaves the old contents, zeros up to the offset, the payload over them and the old tail; old contents and payload in append mode |
| SftpWrites.StoreTwice | src/sftp.rs:866-890 | Two stores one after the other are one store of both |
| SftpWrites.RunPayload | src/sftp.rs:832-909 | A payload is used up exactly and answered once |
| SftpLaws.SetStatLaw | src/sftp.rs:1073-1148 | A size change leaves the prefix or the zero extension, the other attributes set, and OK; what STAT then tells of them is SftpAttrs.SetThenStat |
| SftpLaws.ReadLaw | src/sftp.rs:708-772 | READ returns the bytes at the offset, as many as asked for, exist and fit a reply; otherwise end of file |
| SftpLaws.ReadBack | src/sftp.rs:708-909 | What a WRITE stored, a READ of the same range gives back |
| SftpLaws.ListsEachOnce | src/sftp.rs:579-632 | The batches of a listing are the directory's entries, each once and in order, 1 to 24 at a time |
| SftpLaws.ReadDirEnumerates | src/sftp.rs:579-632 | READDIR until the end gives exactly those batches and then the end |
| SftpTokens.TokenLife | src/sftp.rs:459-481 | A token is accepted exactly as long as no CLOSE carried it, for fewer than 2^24 allocations after it was issued |
| SftpTokens.TokensStayDistinct | src/sftp.rs:459-481 | Over every conversation the tokens of open handles are pairwise different |
| SftpTokens.StaysDead | src/sftp.rs:472-481 | A closed handle's token stays refused for fewer than 2^24 allocations after it was issued |
| SftpTokens.MessageTable | src/sftp.rs:459-481 | A message opens one handle under the next token, closes the one it names, or leaves the table alone |
| SftpTokens.AcceptedWhenLive | src/sftp.rs:472-481 | The server accepts exactly four-byte strings that are the token of an open handle |
| FatFile.NewAt | vendor-patches/hadris-fat/0005-random-write-preserves-tail.patch:74-107 | Walking the chain to an offset at or before the end arrives at the cluster of the byte before it, and fails past the end |
| FatFile.CommittedIsWritten | vendor-patches/hadris-fat/0005-random-write-preserves-tail.patch:111-145 | A writer that stands at its own count commits the flat overlay: no cluster of the kept tail is freed and the size does not shrink |
| FatFile.PositionRoundTrip | vendor-patches/hadris-fat/0005-random-write-preserves-tail.patch:74-107 | Cluster and offset of a position stand for that position again |
| FatFile.TailAccepted | vendor-patches/hadris-fat/0002-resumable-append-cursor.patch:45-78 | The true tail passes every check of the append cursor |
| FatFile.CursorAccepted | vendor-patches/hadris-fat/0003-resumable-read-cursor.patch:49-80 | The cursor of a walk passes every check of the read cursor |
| FatFile.WrittenTwice | vendor-patches/hadris-fat/0005-random-write-preserves-tail.patch:111-145 | Two writes one after the other are one write, in contents and chain |
| FatFile.ExtendedStep | src/sftp.rs:1131-1136 | Growing in steps is growing at once, in contents and chain |
| FatFile.GrowNoRepeats | vendor-patches/hadris-fat/0005-random-write-preserves-tail.patch:74-107 | A chain never gets a cluster twice |
| FatFile.WrittenSound | vendor-patches/hadris-fat/0005-random-write-preserves-tail.patch:111-145 | A write keeps the chain as long as the size needs |
| FsPath.Resolve | src/fspath.rs:19-36 | The components a path resolves to; what they are is FsPath.ResolvedOn, ResolvedFromRoot and ResolvedBehind |
| FsPath.Display | src/fspath.rs:38-49 | The text of components |
| FsPath.ResolvedIsNormal | src/fspath.rs:19-36 | Resolved paths have no empty, dot or dot-dot component |
| FsPath.DisplayRoundTrip | src/fspath.rs:19-49 | Resolving what is displayed gives the components back |
| FsPath.CanonicalLength | src/fspath.rs:19-49 | A canonical path is at most one byte longer than the path it comes from |
| Msc.MscClass.ReadBlocks | src/msc.rs:681-759 | READ(10): the blocks sent are the card's, bytes sent and residue add up to the transfer length on every Passed or Failed outcome, and a streamed read leaves both LRU lines as they were |
| Msc.MscClass.ReadRounds | src/msc.rs:701-758 | The loop always advances and sends the addressed blocks in order |
| Msc.MscClass.ReadRound | src/msc.rs:701-747 | One round sends at least one block or reports what failed |
| Msc.MscClass.WriteRound | src/msc.rs:788-823 | One chunk is staged, written and folded into the cached lines; if the card fails, exactly those blocks are outdated that a line holds and the card now has otherwise |
| Msc.FailedWriteOutdates | src/msc.rs:804-815 | The same for any lines and any change of the card |
| Msc.OutdatedLine | src/msc.rs:804-815 | A concrete card, line and failed write after which the line is outdated |
| Msc.MscClass.Victim | src/msc.rs:252-262 | The stream line for streaming, else an empty or the least recently used line |
| Msc.MscClass.Fill | src/msc.rs:704-726 | A filled line holds the card's aligned run around the block |
| Msc.MscClass.RefreshLine | src/msc.rs:269-282 | A cached line takes the written blocks it overlaps |
| Msc.MscClass.BeginCommand | src/msc.rs:501-507 | The cache is dropped when a session began since the last command, unless exactly a multiple of 2^32 did |
| Msc.MscClass.Invalidate | src/msc.rs:239-243 | No line is valid |
| Msc.SharedState.Attach | src/msc.rs:143-156 | A new session on a card |
| Msc.SharedState.Detach | src/msc.rs:158-164 | No card |
| Msc.LinesDisjoint | src/msc.rs:225-237 | No two coherent lines hold the same block |
| Msc.FillCoherent | src/msc.rs:704-726 | Filling a line keeps the cache coherent |
| Msc.WrittenCoherent | src/msc.rs:269-282 | Writing through to the card and the lines keeps the cache coherent |
| Msc.TaintedCoherent | src/msc.rs:804-815 | A failed write makes doubtful only the blocks of its own chunk |
| UsbEndpoints.EndpointIn.WritePackets | src/msc.rs:289-294 | Data goes out in full packets and one shorter |
| UsbEndpoints.EndpointOut.ReadPackets | src/msc.rs:296-309 | Exactly as many bytes as asked come in |
| UsbEndpoints.EndpointOut.Discard | src/msc.rs:849-860 | Exactly as many bytes as asked are dropped |
| CopyJob.FileManager.Paste | src/filemanager.rs:357-432 | Refuses exactly when a check fails on a card that works; else moves the entry or starts a job with everything still to copy |
| CopyJob.CopyJob.RunToEnd | src/filemanager.rs:661-686 | The job ends; success means the destination subtree equals the source and nothing else changed, with true totals; on a card that works it succeeds exactly when directories are nested at most 12 deep |
| CopyJob.CopyJob.Step | src/filemanager.rs:691-783 | Each step does less than what is left, completes with an exact copy, or fails having only added below the destination |
| CopyJob.CopyJob.StepFile | src/filemanager.rs:692-742 | One chunk of a file through both cursors, or its end |
| CopyJob.CopyJob.StepDirectory | src/filemanager.rs:743-782 | The next entry of the top directory, by index |
| CopyJob.Volume.ItemAt | src/filemanager.rs:123-144 | Counting from the start, past the dot entries, finds the entry with that index |
| CopyJob.CopyFrame | src/filemanager.rs:691-783 | In every reachable state, errors included: what existed before keeps its contents, and anything new lies below the destination entry |
| CopyJob.PasteChecksApart | src/filemanager.rs:357-386 | The checks keep source and destination apart |
| CopyJob.MoveKeeps | src/filemanager.rs:388-396 | A moved entry is at its new place with all it holds and every path elsewhere is as it was |
| CopyJob.MoveRemoves | src/filemanager.rs:388-396 | Nothing is left at the old place |
| CopyTree.PartialPut | src/filemanager.rs:691-783 | The next chunk of the file in progress is in the partial copy the positions stand for |
| CopyTree.Finished | src/filemanager.rs:743-748 | With every position at its end the partial copy is the source |
| CopyTree.TrailLookup | src/filemanager.rs:123-144 | The paths of the stacked directories lead to them |
| Clock.DateOfDay | src/clock.rs:122-149 | The date of every day number is a valid date and has that day number |
| Clock.DayOfDate | src/clock.rs:122-149 | The day number of every valid date has that date |
| Clock.NextDayIsNextDate | src/clock.rs:133-149 | Consecutive days are consecutive dates |
| Clock.LastSundayIsLast | src/clock.rs:110-119 | It is a Sunday of that month and the month has no later one |
| Clock.SummerInYear | src/clock.rs:102-108 | Summer time starts and ends inside the year |
| Clock.UnixRoundTrip | src/clock.rs:41-59 | From an instant to local time and back: the instant, less an hour exactly in the hour after summer time ends |
| Clock.LocalRoundTrip | src/clock.rs:41-59 | From local time to an instant and back: the same, plus an hour exactly in the spring gap |
| Clock.AutumnHourIsRepeated | src/clock.rs:41-59 | The hour that has two instants is exactly where summer time held an hour earlier and holds no longer |
| Clock.SpringHourIsSkipped | src/clock.rs:41-59 | The hour that has none is exactly where summer time holds and did not hold an hour earlier |
| Clock.FieldsRoundTrip | src/clock.rs:62-98 | Date and time fields of any second give the second back |
| FatTime.MtimeRoundTrip | src/sftp.rs:1321-1395 | A time set and reported comes back rounded down to an even second, less an hour exactly in the hour after summer time ends |
| FatTime.AtimeKeepsLocalDate | src/sftp.rs:1405-1417 | The reported access time falls on the same local date |
| FatTime.FatRangeExact | src/sftp.rs:1321-1337 | A time is refused exactly when its local year is outside 1980 to 2107 |
| SdBlock.SdBlockDevice.Mount | src/sdblock.rs:77-114 | Adopts the first usable partition that lies on the card, or reports why not; what the bytes of its entry say is SdBlock.EntryReads |
| SdBlock.SdBlockDevice.Read | src/sdblock.rs:154-191 | Exactly the bytes at the position, at any alignment; on failure the position stays |
| SdBlock.SdBlockDevice.Write | src/sdblock.rs:195-234 | Exactly the bytes at the position change; on failure the position stays and only bytes of the range may differ |
| SdBlock.SdBlockDevice.Seek | src/sdblock.rs:244-255 | The position, or a refusal outside the partition |
| SdBlock.SdBlockDevice.WriteAligned | src/sdblock.rs:208-221 | Runs of up to 16 whole blocks |
| SdBlock.SdBlockDevice.WritePartial | src/sdblock.rs:222-229 | Read, modify and write one block |
| SdBlock.WriteThenRead | src/sdblock.rs:154-234 | What was written is read back |
| WifiScan.ScanList.ScanPasses | src/wifi.rs:182-193 | After any passes the list has distinct names by falling strength, each with its greatest strength, and nothing stronger is left out |
| WifiScan.ScanList.Merge | src/wifi.rs:182-193 | One pass keeps that |
| WifiScan.StrengthsDetermined | src/wifi.rs:182-193 | Its strengths are those of the eight strongest of everything seen, so truncating after each pass loses nothing |
| WifiScan.FinishPass | src/wifi.rs:190-193 | Sorting and truncating what a pass merged |

## Left out

- Card and volume errors during SFTP, and a full card: the volume of the SFTP part does not fail. Failures of the card are part of the mass storage, partition view and copy models.
- SFTP while the volume is given to USB (`volume` is None): every request but INIT is refused; the model has a volume throughout.
- What a READ gives and a WRITE stores through a cursor that passes its checks and whose cluster is not where it says it is: parameters of the environment, `strayRead` and `strayWrite`, of which a read may give any bytes up to the size the cursor knows and a write any sound volume. `SftpDrive.Session` promises the flat result up to the first use of a handle whose file was removed or renamed, and honest replies and agreeing schedules throughout.
- The code of hadris-fat: readers and writers are modelled by the cluster and offset vendor/hadris-fat/src/read.rs and write.rs leave them at, the end of the cluster behind a cluster boundary. A read gives any number of bytes from one up, the allocator is a function of the file, a number that every truncation changes, and its chain, and what identifies a new entry's directory slot is a parameter that may repeat what removed entries had.
- The numbers of statvfs and the text of a READDIR long name: parameters of the environment, the latter at most 896 bytes.
- The order of new directory entries: appended at the end, as are renamed ones.
- 8.3 aliases and case folding outside ASCII: names match as `eq_ignore_ascii_case` compares them, and one entry stands for one spelling class.
- Modification times set by the FAT time provider, access-time updates on reading, and statistics.
- Heap reservation of the buffers (`reserve_full`): sequences have no capacity.
- The mass storage command block decoder, and the bytes of INQUIRY, MODE SENSE, REPORT LUNS, READ CAPACITY(16) and READ FORMAT CAPACITIES: commands arrive decoded; attach and detach happen between commands, not inside one.
- FAT on disk: long name slots, FSInfo, the directory window and directory repair of patches 0001 and 0004.
- Writes inside a block: a card write that fails may have stored any of its blocks, but each block whole or not at all.
- The file manager's screens, naming and deleting, and the busy checks around a running copy job.
- SSH, TCP, the shell, the user interface, drivers, configuration, SNTP, battery and watchdog.

# Open Relic: a verified model

Open Relic is a Git server. A repository lives in one durable object: its Git objects are rows with
chunked bytes, its refs are rows, and a few more rows carry maintenance on from one alarm to the next.
This project models the parts of it that are hard to get right, and proves what they are for.

- **Decompressor** (`Bits`, `Huffman`, `Inflate`, `Chunks`, `Exact`, `Adler`, `InflaterObject`, and the
  format's side in `Deflate`, `DeflateHeader`, `DeflateStream`, `DeflateSound`): RFC 1950 and RFC 1951
  over a bit stream. The step function is the specification; `Chunks` proves that cutting the input
  anywhere changes nothing, `DeflateStream` that every stream of every compressor is undone,
  `DeflateSound` that nothing but such a stream is accepted, `InflaterObject` that the class with its
  buffers does just that. The format's side has its tables as formulas and its fixed code as printed in
  the RFC, not as the decoder has them.
- **Packs** (`Delta`, `DeltaText`, `PktLine`, `PackFrames`, `PackStream`, `PackFormat`, `PackText`,
  `PackReader`, `PackCoherence`, `PackOrder`, `PackWriter`, `ReadAhead`, `Repack`): `PackFormat` and
  `Delta` say what the readers do with the bytes at hand, `PackText` and `DeltaText` what a pack and a
  delta are, told without a reader: one is accepted exactly if it is the other. The streaming reader
  refines `PackFormat`, and what the writer emits is read back. Zlib is not assumed: the pack reader is
  proved over the decompressor above.
- **Object graph safety** (`Graph`, `Connectivity`, `Commands`, `Sweep`, `RepositoryObject`): what an
  object names is told from its parts (`Names`), and the links the code follows are just that; `Sweep`
  is the state machine of all durable steps, with a crash possible between any two; `RepositoryObject`
  carries the operations out and shows each to be a run of it.
- **Fetch** (`Depth`, `Fetch`, `Transfer`): the shallow boundary, the walks, the set subtraction; and a
  fetch from end to end, from the request to the client's repository without a loose end. `Push` is the
  same for pushes and imports: from the bytes of a pack to the refs.
- **Import** (`Registry`, `Import`): the job, its checkpoint, and a registry whose replies can be lost.
- **History** (`CommitQueue`, `History`) and **storage** (`ChunkedKv`, `ObjectStore`, and
  `StoreRefinement`, which shows the rows and chunks to be the objects of the other parts).

What is taken for granted is always a precondition or a named predicate, never a global axiom:

- `Sweep`, `RepositoryObject`, `PackCoherence` and `Repack` quantify over a map `u` from names to
  contents, so that a name always means the same object, also one that was reclaimed and returns;
  `PackFormat` instead has an outcome for a collision, and `Push.NoCollision` says that there is none.
- `BlobsAreBlobs`, `ParentsAreCommits`, `GraftedStore`: a link's declared type is true, and grafts are
  commits. `MistypedLinkIsSwept` shows a run that loses a reachable object to a link with a false type;
  `RowsStayIff` says without that condition which writes can do it, and `SweepNeverTakesHeld` what holds
  if there are none.
- `Transfer.Honest`: a client has what it says it has, and its haves lie in a part of it that has no
  loose end. `Push.MeansWell`, for the lemma that an honest push goes through, and for nothing else.
- The repository row exists (`Fresh`); `PushWithoutRowIsSwept` shows why. A fork completes without a sweep
  that began before it and has not marked its tips (`Unswept`): `ForkDuringSweepIsSwept` shows a run that
  loses them, `ForkMayCompleteIff` that the condition is exact.
- Each database transaction is one step. SQL rows and key-value chunks share one, which
  `InstallMustBeWhole` shows to be needed where the code writes both without a transaction.
- `Import.Expected`: a job is scheduled for the name that was reserved, only the fetch throws a remote
  error, and others change only their own rows.

Three promises are false of the code, and their exact conditions are proved instead:

- *Everything a ref needs is present.* A reset (apps/api/src/repository-store.ts:529-548) removes objects
  one at a time, and an import whose job is retried resets a repository that may already have its ref.
  `RunStaysWholeIff` says exactly which runs keep the refs whole, `ResetMayStopAnywhereIff` that a reset may
  die anywhere exactly if it finds no ref, `GuardedRunsAreConnected` and `UnguardedResetTears` what follows
  for whole runs.
- *A push that is accepted is complete.* The index keeps the first link to a target, and a tree that names
  an object as a file and later as a subtree, which a client can send, thereby conceals the subtree from the
  walk (apps/api/src/object-store.ts:39-48, 792-815). `HiddenSubtreeIsPushed` is a run in which the ref moves
  and the subtree is missing. `VerdictIsTrueIff` says exactly when one verdict is true,
  `VerdictsAreTrueIff` when all are, `StepKeepsWholeIff` and `WholeIff` which pushes and which states are
  without harm. Nothing a ref reaches is swept even then, and the sweeper does not stop.
- *A published repository is never destroyed.* `StepKeepsInvIff` and `RunKeepsInvIff` name the three steps
  that break it. Two the code can take: `ClosingMayThrowIff`, because the handler around the fetch also
  covers closing the published job; and `GivingUpIsSafeIff` with `LostScheduleReplyDestroys`, because a
  request whose call to schedule is lost destroys the object (apps/api/src/repository-routes.ts:641-645).
  The third is scheduling a job again, which does not wait for a run to end: `SchedulingAgainEmptiesIff`,
  and `SchedulingInPublicationEmpties` for a job that comes while the row is about to become ready. Both
  callers (apps/api/src/repository-routes.ts:634, apps/api/src/artifacts-binding-service.ts:423) schedule a
  new object once, so it takes a caller yet to be written.

Where code and documentation differ, the code is modelled: the import operation promises that a
published repository is never destroyed; the link index is documented as the parsed graph, which
`IndexAgreesIff` makes precise.

`dafny verify dfyconfig.toml` checks the whole project.

## Model

| member | source | states |
|---|---|---|
| `Adler32Sum.Adler32` | apps/api/src/inflate.ts:111-134 | reducing the two sums once per 5552 bytes gives the checksum of section 8.2 of RFC 1950, which reduces after every byte |
| `Adler32Sum.HighFits` | apps/api/src/inflate.ts:109-134 | over one run of 5552 bytes the unreduced sum stays below 32 bits |
| `Adler32Sum.AdlerIsSums` | apps/api/src/inflate.ts:109-134 | the checksum is 65536 times the sum, over all bytes, of each byte as often as it is still part of the running sum, and of the length, plus one more than the sum of the bytes, both modulo 65521 |
| `Huffman.BuildHuffman` | apps/api/src/inflate.ts:73-95 | the counting sort over arrays yields the tables that the specification function defines |
| `Huffman.SymbolOfCode` | apps/api/src/inflate.ts:73-95 | every coded symbol sits in the table at the position of its canonical code, for any lengths |
| `Huffman.PositionsDiffer` | apps/api/src/inflate.ts:86-92 | two coded symbols never share a position, so the sort overwrites nothing |
| `Huffman.BuildIsTable` | apps/api/src/inflate.ts:517-536 | for any lengths, over-subscribed ones included, the walk never has a negative offset and never leaves the symbol table |
| `Huffman.DecodeIsCanonical` | apps/api/src/inflate.ts:517-536 | the bit-by-bit walk answers a symbol if and only if the input spells its canonical code (section 3.2.2 of RFC 1951), consuming exactly that code |
| `Huffman.DecodeSound` | apps/api/src/inflate.ts:517-536 | whatever the walk answers, the bits it consumed are the canonical code of its answer |
| `Huffman.FirstCode` | apps/api/src/inflate.ts:73-95 | the first coded symbol, by length and then by number, has the code of zeros |
| `Huffman.NextCode` | apps/api/src/inflate.ts:73-95 | each next one has the code before it plus one, with as many zeros appended as it is longer: the code of section 3.2.2 of RFC 1951, told without tables |
| `Huffman.KraftIffCodesFit` | apps/api/src/inflate.ts:73-95 | the Kraft inequality holds exactly when no code runs past its own length |
| `Inflate.StepAdvances` | apps/api/src/inflate.ts:259-274 | every step keeps the decoder ready and inside its input, and reads something or leaves a stored block, so pushing terminates |
| `Chunks.StepMoves` | apps/api/src/inflate.ts:181-257 | a step repeated on a buffer that lost whole bytes already read, and may have grown, has the same effect; a step that waited waits again unless something arrived |
| `Chunks.WaitResumes` | apps/api/src/inflate.ts:327-343 | a step that waited has lost nothing, including a stored block that took the bytes at hand: resumed, it does what the whole step would have done |
| `Chunks.RunMoves` | apps/api/src/inflate.ts:181-219 | an end or a failure stays what it was when input is dropped and added; a wait resumes where it stopped |
| `Chunks.PushSplits` | apps/api/src/inflate.ts:181-257 | pushing `a` then `b` ends exactly as pushing `a + b`: same state, output, leftover or error; and once `a` ended the stream, `b` only joins the leftover |
| `Chunks.ChunksDoNotMatter` | apps/api/src/inflate.ts:181-257 | for every way of cutting the input into chunks the session ends as if all bytes had been pushed at once |
| `Chunks.LeftoverIsTail` | apps/api/src/inflate.ts:221-233 | the leftover is exactly a tail of what was pushed |
| `Chunks.OpenIsNotOver` | apps/api/src/inflate.ts:160-163 | a session that still waits has not reached the end of its stream |
| `Exact.RunNeedsMore` | apps/api/src/inflate.ts:181-219 | a run that waits at the end of its input, and ends with more, ends past it and on a byte boundary |
| `Exact.EndsWithItsLastByte` | apps/api/src/inflate.ts:181-219 | the stream is over as soon as its last byte arrived: nothing behind it is waited for |
| `Deflate.ItemIsRead` | apps/api/src/inflate.ts:401-443 | a literal or a match, told by its length and distance and spelled with any two codes that have words for it, is read back as that token |
| `Deflate.LengthTable` | apps/api/src/inflate.ts:46-52 | the decoder's length tables are those of section 3.2.5 of RFC 1951, told as formulas: from 3, no extra bits below code 8, then one more every four codes, each base the one before plus its span, and 258 at the end |
| `Deflate.DistanceTable` | apps/api/src/inflate.ts:54-60 | and so are its distance tables: from 1, one more extra bit every two codes, up to 32768 |
| `Deflate.EveryMatchIsItem` | apps/api/src/inflate.ts:401-443 | every length from 3 to 258 and every distance from 1 to 32768 has codes, with extra bits that give it |
| `Deflate.ItemsAreMatches` | apps/api/src/inflate.ts:401-443 | and what the codes and extra bits say is always such a length and distance |
| `Deflate.ApplyAdds` | apps/api/src/inflate.ts:433-442 | the effect of a match, overlapping or not, is what the format means: each byte repeats the one `distance` back |
| `Deflate.BodyRuns` | apps/api/src/inflate.ts:401-443 | the items of a compressed block, one after another, give exactly the bytes they mean |
| `DeflateHeader.HeaderIsRead` | apps/api/src/inflate.ts:345-399 | the header of a dynamic block (section 3.2.7 of RFC 1951), with runs that cross from one code to the other, is read back as the two codes it was made from; the codes may be over-subscribed |
| `DeflateHeader.OrderIsTheDecoders` | apps/api/src/inflate.ts:41-43 | the order in which code lengths are sent, told as a formula: 16, 17, 18, 0, then 8 and outwards, one above and one below in turn |
| `DeflateStream.RunStored` | apps/api/src/inflate.ts:313-343 | a stored block whose bytes are all here is copied whole |
| `DeflateStream.DynamicRuns` | apps/api/src/inflate.ts:294-399 | a dynamic block is inflated to what it means |
| `DeflateStream.FixedRuns` | apps/api/src/inflate.ts:97-107 | a block with the fixed codes is inflated to what it means |
| `DeflateStream.FixedWords` | apps/api/src/inflate.ts:97-107 | the fixed code spells each symbol as section 3.2.6 of RFC 1951 prints it: 8 bits from 48 up to 143, 9 from 400 up to 255, 7 from 0 up to 279, 8 from 192 from there |
| `DeflateStream.FixedDistanceWords` | apps/api/src/inflate.ts:97-107 | and each distance code as its number in five bits |
| `DeflateStream.ZlibRuns` | apps/api/src/inflate.ts:259-274 | any zlib stream, made of any blocks, runs to its end with the bytes its blocks mean |
| `DeflateStream.InflateUndoesDeflate` | apps/api/src/inflate.ts:181-219 | whatever compressor made the stream, with whatever codes, and whatever bits it filled up to byte boundaries with, one push gives back its bytes and leaves over exactly what followed it |
| `DeflateStream.BareRuns` | apps/api/src/inflate.ts:259-274 | blocks without header and checksum run to their end, on a byte boundary, with the bytes they mean |
| `DeflateStream.InflateUndoesRawDeflate` | apps/api/src/inflate.ts:181-219 | the round trip of raw streams, as compressed requests carry them: one push gives back the bytes and leaves over exactly what followed |
| `DeflateSound.TokenIsSpelled` | apps/api/src/inflate.ts:401-443 | whatever symbol is read, the bits it took spell a literal, the end of the block, or a match of the length and distance it gave |
| `DeflateSound.HeaderIsSpelled` | apps/api/src/inflate.ts:345-399 | whatever dynamic header is read, the bits it took are a header of just those two codes |
| `DeflateSound.PiecesAreSpelled` | apps/api/src/inflate.ts:259-274 | whatever run of blocks ends, its bits are blocks that mean just its output |
| `DeflateSound.InflateAcceptsIff` | apps/api/src/inflate.ts:181-274 | one push ends with these bytes and this rest if and only if the input is a zlib stream of the bytes, header and checksum included, with the rest behind it, and they have the promised size |
| `DeflateSound.RawInflateAcceptsIff` | apps/api/src/inflate.ts:181-274 | the same for raw streams |
| `DeflateSound.WaitsOnlyWhenShort` | apps/api/src/inflate.ts:493-536 | a step waits only if the bits at hand are fewer than one symbol, header or field can take |
| `InflaterObject.Inflater.Push` | apps/api/src/inflate.ts:181-257 | the object over its buffers does what the session does: its state, held input, output, leftover or error are those of the specification; after the end it throws |
| `InflaterObject.Inflater.Drain` | apps/api/src/inflate.ts:189-219 | the step loop with its rewind ends as the specified run does, with the read position put back where a step that ran out of bits began |
| `InflaterObject.Inflater.Step` | apps/api/src/inflate.ts:259-274 | one step over the buffers is one step of the specification |
| `InflaterObject.Inflater.CopyStored` | apps/api/src/inflate.ts:327-343 | a stored step keeps what it copied, so it is not rewound |
| `InflaterObject.Inflater.DecodeSymbol` | apps/api/src/inflate.ts:401-443 | nothing is written before a whole symbol was read |
| `InflaterObject.Inflater.ReadDynamicTables` | apps/api/src/inflate.ts:345-399 | the two tables are those of the specified header, or input is wanted, or the stream is refused |
| `InflaterObject.Inflater.DecodeWith` | apps/api/src/inflate.ts:517-536 | one symbol, as specified |
| `InflaterObject.Inflater.Bits` | apps/api/src/inflate.ts:493-515 | gathering bits a byte at a time gives the bit field at the read position |
| `InflaterObject.Inflater.Compact` | apps/api/src/inflate.ts:249-257 | dropping whole bytes keeps the position within its byte |
| `InflaterObject.Inflater.Finish` | apps/api/src/inflate.ts:221-233 | a stream that is short of its promised size is corrupt |
| `Delta.ReadVarint` | apps/api/src/delta.ts:27-51 | little-endian base-128 groups, refused once the value would not be a safe integer |
| `Delta.VarintIsRead` | apps/api/src/delta.ts:27-51 | a size that was written is read back |
| `Delta.ReadOperand` | apps/api/src/delta.ts:85-99 | the operand bytes whose flags are set, the others being zero |
| `Delta.ApplyDelta` | apps/api/src/delta.ts:54-136 | the array-filling decoder computes what the delta means, with the same error in every malformed case |
| `Delta.DeltaVarint` | apps/api/src/repack.ts:32-43 | the groups of a size |
| `Delta.CopyInstruction` | apps/api/src/repack.ts:45-63 | opcode and operand bytes of a copy, zero bytes left out |
| `Delta.CopyIsRead` | apps/api/src/delta.ts:82-112 | a copy instruction is read back as its offset and size |
| `DeltaText.SizeIff` | apps/api/src/delta.ts:27-51 | a size is read if and only if its bytes are seven-bit groups, least first, each but the last saying that another follows, and it is a safe integer |
| `DeltaText.ApplyIff` | apps/api/src/delta.ts:54-136 | a delta gives a result if and only if it is one, told without the decoder: the two sizes, then copies whose absent offset bytes are zero and whose size, if all its bytes are absent or zero, is 65536, each inside the base, and inserts of 1 to 127 bytes, which together give the result |
| `DeltaText.TooLargeIff` | apps/api/src/delta.ts:54-136 | it is refused as too large if and only if its sizes can be read, the first is that of the base, and the second is above 32 MiB |
| `Delta.CopiesPlay` | apps/api/src/repack.ts:96-103 | a span of the base cut into copies no longer than 0xffffff plays back as the span |
| `Delta.InsertsPlay` | apps/api/src/repack.ts:107-110 | inserted bytes cut into runs of at most 127 play back as those bytes |
| `Delta.MatchPrefix` | apps/api/src/repack.ts:80-84 | the loop finds the longest common prefix |
| `Delta.MatchSuffix` | apps/api/src/repack.ts:86-93 | the loop finds the longest common suffix that does not meet the prefix |
| `Delta.BuildRepackDelta` | apps/api/src/repack.ts:80-115 | the delta built by the loops is the specified one |
| `Delta.ApplyUndoesBuild` | apps/api/src/repack.ts:80-115 | applying a built delta to its base gives the target, for every target an object may be; a larger target is refused |
| `Delta.BuildIsBounded` | apps/api/src/repack.ts:120-121 | a built delta is never longer than the planned bound |
| `Delta.BuildIsShort` | apps/api/src/repack.ts:80-115 | however much of its beginning and of its end the target has in common with the base, no more than the rest is inserted, with a few bytes for the sizes, each run of 127 inserted and each 16777215 copied |
| `Delta.EstimateCovers` | apps/api/src/repack.ts:120-130 | the planned memory covers base, target, the delta built, and its compressed form even if nothing in it compresses |
| `Delta.RepackedDeltaIsReadable` | apps/api/src/repack.ts:117-130 | two objects of one bucket whose estimate fits the memory budget give a delta that fits one pack entry and applies |
| `PktLine.LineIsRead` | apps/api/src/git/pkt-line.ts:34-49 | a framed payload is read back, and nothing past it |
| `PktLine.FlushIsRead` | apps/api/src/git/pkt-line.ts:29-30 | a flush is read as one |
| `PktLine.FirstIff` | apps/api/src/git/pkt-line.ts:130-183 | the first packet of some bytes, told by the length that its four hexadecimal digits declare: a payload of at most 65516 bytes that is all there, a flush, a delimiter or an end, or no bytes at all; each in exactly its case |
| `PktLine.PktLineReader.NextPacket` | apps/api/src/git/pkt-line.ts:130-183 | under any chunking the next packet is the first of what was not read yet, and exactly its bytes are consumed; a malformed one stays |
| `PktLine.PktLineReader.Next` | apps/api/src/git/pkt-line.ts:117-123 | the same for a stream without control packets; after the hand-over nothing is read |
| `PktLine.PktLineReader.Rest` | apps/api/src/git/pkt-line.ts:185-215 | exactly the unread suffix is handed over, once |
| `PackFrames.FramesAreRead` | apps/api/src/git/upload-pack.ts:487-497 | the frames, read packet by packet up to the flush, concatenate to exactly the framed bytes, and what follows the flush is untouched |
| `PackFrames.BareFrames` | apps/api/src/git/upload-pack.ts:487-497 | without a band the frames are the bytes themselves |
| `PackFrames.FrameIsBounded` | apps/api/src/git/upload-pack.ts:474-497 | no frame is empty or longer than 65520 bytes |
| `PackFrames.PackFrameWriter.Write` | apps/api/src/git/upload-pack.ts:417-426 | exactly the reported bytes are appended, at least one if there is any, and what was hashed stays a prefix of what was written |
| `PackFrames.PackFrameWriter.WriteAll` | apps/api/src/git/upload-pack.ts:840-846 | bytes spread over any number of frames are appended whole |
| `PackFrames.PackFrameWriter.WriteEntryHeader` | apps/api/src/git/upload-pack.ts:428-436 | appends the type and size of an entry |
| `PackFrames.PackFrameWriter.WriteObjectId` | apps/api/src/git/upload-pack.ts:438-450 | appends the twenty bytes of a base, also when they straddle two frames |
| `PackFrames.PackFrameWriter.TakeFrame` | apps/api/src/git/upload-pack.ts:452-455 | frames are taken in order, each once |
| `PackFrames.PackFrameWriter.HashThrough` | apps/api/src/git/upload-pack.ts:499-509 | everything up to `end` is hashed once, nothing after the digest began |
| `PackFrames.PackFrameWriter.Finish` | apps/api/src/git/upload-pack.ts:457-467 | the payloads of all frames are what was written followed by the digest of just that, even when the trailer straddles a frame; every frame but the last is as large as a frame can be |
| `PackStream.Stream.Take` | apps/api/src/pack.ts:256-267 | the next bytes of the body under any chunking, or none when the body is too short, and then the position stays |
| `PackStream.Stream.TakeBuffered` | apps/api/src/pack.ts:274-286 | some non-empty part of what comes next, or none at the end |
| `PackStream.Stream.Unread` | apps/api/src/pack.ts:288-303 | handing back restores the position |
| `PackStream.Stream.AtEnd` | apps/api/src/pack.ts:305-312 | true exactly at the end of the body |
| `PackStream.Stream.Hold` | apps/api/src/pack.ts:352-372 | what is held back is always the last twenty bytes seen, and everything before them is hashed |
| `PackStream.Stream.Digest` | apps/api/src/pack.ts:314-316 | at the end it is the digest of all but the last twenty bytes |
| `PackReader.PackWrites.Write` | apps/api/src/pack.ts:101-115 | pending and stored objects together are the map of everything written; a batch is at most 128 objects and 4 MiB unless it is a single one |
| `PackReader.PackWrites.Flush` | apps/api/src/pack.ts:117-124 | flushing changes nothing a reader can see |
| `PackReader.PackWrites.Read` | apps/api/src/pack.ts:97-99 | reading through the batcher is reading from a plain map of everything written |
| `PackReader.RecentPackBases.Remember` | apps/api/src/pack.ts:189-210 | the cache holds exactly the newest of what was remembered that fit into 256 entries and 4 MiB, the one just used last; one too large by itself is not kept |
| `PackReader.FindBase` | apps/api/src/pack.ts:638-653 | the base of a delta is the one a plain map would give, cached or not |
| `PackReader.PackWrites.AppendWithRoom` | apps/api/src/pack.ts:101-115 | an object that does not fit with those that wait is appended after they were stored; if that fails, a part of them is |
| `PackReader.Sink.WriteBatch` | apps/api/src/pack.ts:71-81 | all of a batch is stored, or the write fails and any part of it is; what was stored stays |
| `PackReader.Keep` | apps/api/src/pack.ts:592-607 | naming, writing and remembering an object is adding it to that map; what is stored changes only to all of the map, before or with the object, or, if a write fails, to a part of it |
| `PackReader.ReadEntryHeader` | apps/api/src/pack.ts:384-411 | type and size of an entry, with its error cases |
| `PackReader.ReadBackOffset` | apps/api/src/pack.ts:417-431 | how far back a base lies, with its error cases |
| `PackReader.InflateEntry` | apps/api/src/pack.ts:482-529 | one zlib stream: its bytes, the compressed bytes it took, and the position behind it, whatever was read too far |
| `PackReader.MakeRoom` | apps/api/src/pack.ts:563-564 | before a large entry everything that waits is stored |
| `PackReader.ReadBody` | apps/api/src/pack.ts:566-607 | the entry behind its header, read as the format says |
| `PackReader.ReadOne` | apps/api/src/pack.ts:560-608 | one entry, read as the format says; if it cannot be, what is stored is what was, or all that the entries before it gave |
| `PackReader.ReadAll` | apps/api/src/pack.ts:560-612 | all entries, read as the format says; if one cannot be read, what is stored is what the first so many entries gave, and a part of that if a write failed |
| `PackReader.EntryEnds` | apps/api/src/pack.ts:560-612 | so wherever reading stops, what was flushed is a prefix of the entries |
| `PackReader.ReadTrailer` | apps/api/src/pack.ts:613-623 | the trailer is accepted exactly when it is complete, last, and the checksum of all before it |
| `PackReader.ReadPack` | apps/api/src/pack.ts:534-626 | under any chunking, the outcome and the stored objects are those of reading the whole pack at once against a plain map; a pack that is refused, in an entry or only at its trailer, leaves the objects of some prefix of its entries, and a part of those if the refusal was for want of room; what was stored before stays in every case |
| `PackText.HeaderIff` | apps/api/src/pack.ts:384-411 | the header of an entry is read if and only if its bytes are one, told without the reader: three bits of type, four of size, then seven a byte; and the size is at most 32 MiB |
| `PackText.DistanceIff` | apps/api/src/pack.ts:417-431 | a distance is read if and only if its bytes are how git writes it: every distance up to the safe integers has exactly one spelling |
| `PackText.StreamIff` | apps/api/src/pack.ts:482-529 | the stream of an entry is read if and only if it is a zlib stream of just its payload |
| `PackText.EntryIff` | apps/api/src/pack.ts:560-608 | an entry is read, for an object and a store, if and only if its bytes spell a whole object, a delta against a named object, or a delta against the object whose entry began that many bytes earlier, and it gives that object |
| `PackText.PackIff` | apps/api/src/pack.ts:534-626 | a pack is accepted, with these objects, if and only if it is one, told without the reader: header, as many entries as it says, each giving its object against those before it, and the checksum |
| `PackText.CutPackIsTruncated` | apps/api/src/pack.ts:256-267 | a pack that stops anywhere before its end is truncated and nothing else |
| `PackText.MoreIsTrailing` | apps/api/src/pack.ts:613-618 | a pack with anything behind it is refused for that |
| `PackText.OtherTrailerIsMismatch` | apps/api/src/pack.ts:619-623 | and one with another trailer for its checksum |
| `PackCoherence.CapturedInflates` | apps/api/src/pack.ts:465-529 | the compressed bytes captured for an entry are a zlib stream for exactly its payload |
| `PackCoherence.InflatesThen` | apps/api/src/pack.ts:482-529 | such a stream, whatever follows it, inflates to its payload and leaves the rest |
| `PackFormat.NameIsRead` | apps/api/src/pack.ts:581-583 | the twenty bytes of a name spell the name they were made from |
| `PackFormat.NamesSortAsBytes` | apps/api/src/pack.ts:581-583 | names are ordered as their bytes are, first byte first, so that rows sorted by name are sorted by number |
| `PackCoherence.PackAddsSound` | apps/api/src/pack.ts:534-690 | whatever the store holds and whatever was reclaimed from it, an accepted pack adds only objects that are what their names mean, whose delta gives them out of what its base's name means, and whose captured stream inflates to what it stands for |
| `PackCoherence.PackKeepsCoherent` | apps/api/src/pack.ts:534-690 | so it leaves a coherent store coherent, also one in which the bases of retained deltas are no longer stored |
| `PackCoherence.CompressedInflates` | apps/api/src/git/upload-pack.ts:521-528 | what any compressor produces can take the place of a captured stream |
| `PackOrder.OrderPack` | apps/api/src/git/upload-pack.ts:548-625 | a permutation without repeats in which every object comes after its base, unless its chain of bases within the pack never ends |
| `PackOrder.RootedIsQueued` | apps/api/src/git/upload-pack.ts:599-614 | an object whose chain of bases ends is queued before the leftovers are appended |
| `PackOrder.BasesComeFirst` | apps/api/src/git/upload-pack.ts:548-625 | whatever goes round in a circle elsewhere, of objects whose chains of bases do not, each stands behind its base if that travels along |
| `PackWriter.ChoiceEmits` | apps/api/src/git/upload-pack.ts:759-832 | whatever is chosen stands for the object: full bytes, or its delta against a base the reader knows by then |
| `PackWriter.ChosenIsPlanned` | apps/api/src/git/upload-pack.ts:745-861 | entries chosen in turn, each against the bases emitted earlier or, in a thin pack, the client's, stand for their objects where they stand |
| `PackWriter.ChoiceIff` | apps/api/src/object-store.ts:180-225 | what is chosen, told from the object: its delta if and only if the base is known and the delta was compressed before or the object was not; and the stream is the one kept, or a new one of just that |
| `PackWriter.EntryIsDeltaIff` | apps/api/src/git/upload-pack.ts:759-832 | an entry is a delta if and only if its base was written earlier or, in a thin pack, is the client's, and the delta was compressed before or the object was not |
| `PackWriter.KeptDeltasAreWritten` | apps/api/src/git/upload-pack.ts:684-861 | so of objects whose chains of bases do not go round in a circle, each whose base is listed too is written as its retained delta, unless only the whole was compressed before |
| `PackWriter.EntriesAreRead` | apps/api/src/pack.ts:560-608 | read from any entry on, whole objects, named deltas and deltas that point back, the reader learns exactly the remaining objects |
| `PackWriter.PackIsRead` | apps/api/src/git/upload-pack.ts:684-867 | the pack round trip: the reader ends with exactly the listed objects added, with their types and bytes, also for thin packs, for packs of other writers with deltas that point back, and when recorded bases form cycles |
| `PackWriter.PackTravels` | apps/api/src/git/upload-pack.ts:1045-1058 | the round trip over the wire, for whatever the writer writes from objects in whatever form: frames, flush and what follows are taken apart again, and the pack read from them adds exactly the listed objects with their types and bytes |
| `ReadAhead.PlanWindow` | apps/api/src/git/upload-pack.ts:637-679 | a window holds at least one object, asks for at most 8 MiB and 96 keys unless it asks for one thing, and takes in as many objects as it can |
| `ReadAhead.PackReadWindows` | apps/api/src/git/upload-pack.ts:628-682 | the windows tile the order without gap, overlap or empty window |
| `ReadAhead.PlannedAsEmitted` | apps/api/src/git/upload-pack.ts:643-674 | at every index the plan and the emission decide alike: the base supposed known is the one found known, and what is planned to be read is, in size and keys, the entry then selected |
| `ReadAhead.WindowServes` | apps/api/src/object-store.ts:862-912 | the read of a window brings exactly the cached entries of its objects, each as its base allows when it is written |
| `ReadAhead.ReadCachedPackEntries` | apps/api/src/object-store.ts:862-912 | the entries selected for the requests |
| `ReadAhead.ReadAheadIsSelected` | apps/api/src/git/upload-pack.ts:759-770 | what was read ahead for an object is what would be selected for it when its turn comes, and what was not read is not cached |
| `ReadAhead.WriteNext` | apps/api/src/git/upload-pack.ts:759-861 | one entry: from what was read ahead or else found, chosen as the base allows at its place, and written |
| `ReadAhead.Scheduler.FillReadAhead` | apps/api/src/git/upload-pack.ts:722-740 | reserved bytes are active plus queued bytes, above 16 MiB only for one oversized window; the window to be awaited next is queued, and as many more as fit |
| `ReadAhead.Scheduler.NextWindow` | apps/api/src/git/upload-pack.ts:745-757 | windows are awaited in order, each after it was queued, and the last one's bytes are let go first |
| `ReadAhead.Scheduler.Emit` | apps/api/src/git/upload-pack.ts:741-861 | every object is written while the window it lies in is active, and the entry is the one that this window's read brought or nothing was cached for it; the entries are those chosen in turn; all reservations are released |
| `ReadAhead.ReleaseFirst` | apps/api/src/git/upload-pack.ts:747-751 | letting a window go keeps the rest within the budget |
| `Graph.VerifyIsReachWithoutBlobs` | apps/api/src/connectivity.ts:152-194 | the links a push verifies are the links that keep alive, minus those from a tree to its blobs |
| `Graph.LinksAreNames` | apps/api/src/connectivity.ts:106-186 | the links of an object are exactly what it names, told from its parts: a commit its tree, and its parents unless grafted; a tree its subtrees, and its files as blobs, or not at all where blobs are left out; never a submodule; a tag its target |
| `Graph.EntryLinksAreNames` | apps/api/src/connectivity.ts:112-150 | the entries of a tree, one by one |
| `Graph.TargetsAreNamed` | apps/api/src/connectivity.ts:152-194 | so the objects that links lead to are exactly those that are named |
| `Graph.GraftedLinks` | apps/api/src/connectivity.ts:152-194 | of a grafted commit exactly the links to parents are left out |
| `Graph.ClosedHolds` | apps/api/src/connectivity.ts:200-282 | a set closed under links holds everything reachable from inside it, stops apart |
| `Connectivity.DeduplicateLinks` | apps/api/src/object-store.ts:39-48 | each target keeps its first link |
| `Connectivity.IndexAgreesIff` | apps/api/src/object-store.ts:755-841 | the index follows the same edges as the objects; without blobs it does so if and only if no tree that is indexed names an object as a file before it names it as a subtree |
| `Connectivity.IndexTells` | apps/api/src/object-store.ts:39-48 | what the row of an object names, told from the object: all that it names, but the subtrees it names as files first |
| `Connectivity.HiddenSubtree` | apps/api/src/object-store.ts:39-48 | a tree for which it does not: the index forgets the subtree |
| `Connectivity.HiddenSubtreeIsAccepted` | apps/api/src/connectivity.ts:227-244 | a store in which the index query, and the walk with it, accepts that tree as complete although its subtree is missing |
| `Connectivity.Closure` | apps/api/src/object-store.ts:755-833 | the recursive query yields exactly what the roots reach outside the stops |
| `Connectivity.ReadObjectClosure` | apps/api/src/object-store.ts:755-833 | the indexed closure is answered exactly when all it needs is indexed, and then is plain reachability with stops and grafts over the first links that the index keeps |
| `Connectivity.Walk.VisitFrontier` | apps/api/src/connectivity.ts:245-277 | one frontier: what the rows of indexed objects and the links of the others name is pending, or an object is named that is reached so and not held |
| `Connectivity.Walk.FindMissingObject` | apps/api/src/connectivity.ts:227-282 | nothing is reported if and only if everything is held and parses that the walk reaches outside the stops, by the rows of indexed objects and the links of the others; otherwise a real such object is, and `visited` is unchanged; on success it grew by exactly what was reached |
| `Connectivity.WalkLeavesOut` | apps/api/src/connectivity.ts:245-277 | the walk follows what the objects themselves name, except exactly what indexed trees conceal |
| `Connectivity.VerdictIsTrueIff` | apps/api/src/connectivity.ts:227-282 | one verdict: what a tip needs is here if and only if the walk finds nothing missing and nothing it reached conceals a missing object |
| `Connectivity.VerdictsAreTrueIff` | apps/api/src/connectivity.ts:227-282 | on a store all verdicts, from any tip up to any stops, are those over the links of the objects themselves, if and only if no indexed tree conceals a missing object, that is, names it as a file first and as a subtree later |
| `Connectivity.Frontier` | apps/api/src/connectivity.ts:246-248 | the next names, without those already settled |
| `Sweep.KeepsInv` | apps/api/src/sweep.ts:100-301 | every durable step of pushes, imports, forks, resets, marking and sweeping keeps the invariant: roots are marked, marks are justified, finished marks have all their links marked, and a closed set supports the refs |
| `Sweep.AlwaysInv` | apps/api/src/sweep.ts:100-301 | so it holds after every run, with a crash possible between any two steps |
| `Sweep.SweepNeverTakesReachable` | apps/api/src/sweep.ts:273-301 | over all runs no object that a ref reaches is ever reclaimed |
| `Sweep.AlwaysComplete` | apps/api/src/repository-store.ts:1268-1317 | over all runs of harmless steps, everything verify-reachable from any ref is present and parses, although pushes stop at ref tips and failed pushes leave partial graphs |
| `Sweep.RunStaysWholeIff` | apps/api/src/repository-store.ts:529-548 | the refs are whole at every point of a run if and only if no reset of it takes an object they need and no push or import of it puts a ref to something that conceals a missing object; no fork, sweep, refused push or crash is an exception |
| `Sweep.StepKeepsWholeIff` | apps/api/src/repository-store.ts:529-548 | a step leaves the refs whole if and only if it neither is a reset taking a needed object nor puts a ref to something that conceals a missing one; where the refs go can be looked at before the step |
| `Sweep.StepStands` | apps/api/src/repository-store.ts:760-897 | every step but a reset keeps it so that a walk over the index from any ref finds nothing missing; every step that does not put refs to what a walk accepted keeps them whole |
| `Sweep.WholeIff` | apps/api/src/connectivity.ts:227-282 | in any state the refs are whole if and only if a walk over the index from them finds nothing missing and conceals nothing missing |
| `Sweep.HiddenSubtreeIsPushed` | apps/api/src/repository-store.ts:835-897 | a run without any reset in which a push of such a tree is accepted and leaves a ref whose subtree is missing |
| `Sweep.RemovalKeepsWholeIff` | apps/api/src/repository-store.ts:529-548 | removing any objects leaves the refs whole if and only if nothing removed is verify-reachable from a ref |
| `Sweep.ResetMayStopAnywhereIff` | apps/api/src/repository-store.ts:529-548 | a reset may be interrupted after any objects if and only if it finds no ref |
| `Sweep.GuardedRunsAreWhole` | apps/api/src/repository-store.ts:529-548 | over all runs that begin resets only without refs, and accept only tips that conceal nothing missing, the refs are whole, wherever a reset was interrupted |
| `Sweep.GuardedRunsAreConnected` | apps/api/src/repository-store.ts:529-548 | over all runs that begin resets only without refs, whatever was pushed, a walk over the index from any ref finds nothing missing and the sweeper never stops |
| `Sweep.UnguardedResetTears` | apps/api/src/repository-store.ts:529-548 | a reset begun with a ref in any state in which nothing was missing can be interrupted so that a ref is left without its object |
| `Sweep.SweeperNeverStuck` | apps/api/src/sweep.ts:219-230 | while a walk over the index from the refs finds nothing missing, the sweeper never meets a marked object it must refuse, also where trees conceal one |
| `Sweep.FinishedSweepIsExact` | apps/api/src/sweep.ts:273-301 | a sweep that finishes has left only objects that a ref reaches |
| `Sweep.PushWithoutRowIsSwept` | apps/api/src/repository-store.ts:1292-1295 | without the repository row a push does not change the version, and a run in which the sweep takes what the push needs exists |
| `Sweep.ForkDuringSweepIsSwept` | apps/api/src/repository-store.ts:720-736 | completing a fork while a sweep is under way loses objects it named |
| `Sweep.ForkMayCompleteIff` | apps/api/src/repository-store.ts:720-736 | completing a fork keeps the invariant if and only if a sweep of the current refs that has begun has marked the tips the fork adds; without one it always does |
| `Sweep.InterruptedResetTears` | apps/api/src/repository-store.ts:529-548 | a reset that crashes half way leaves a ref without its object |
| `Sweep.MistypedLinkIsSwept` | apps/api/src/sweep.ts:219-260 | if a link calls a tree a blob, a reachable object can be swept |
| `Sweep.WriteKeepsRowsIff` | apps/api/src/sweep.ts:219-260 | a write keeps it so if and only if the object written is not one that this sweep is done with as an absent blob and that names something it has not marked |
| `Sweep.StepKeepsRows` | apps/api/src/sweep.ts:100-301 | without trusting declared types, every step but a write keeps the mark set good for what is stored: roots are marked, and a finished row has all its links marked |
| `Sweep.RowsStayIff` | apps/api/src/sweep.ts:205-271 | over a run the mark set stays good if and only if every write was made when it might be |
| `Sweep.TypedMayBeWritten` | apps/api/src/sweep.ts:219-260 | if declared types are true, every write may be made at any time |
| `Sweep.SweepNeverTakesHeld` | apps/api/src/sweep.ts:273-301 | over any such run, whatever objects call each other, nothing is reclaimed that a ref reaches through what is stored |
| `Sweep.VerifiedCloses` | apps/api/src/connectivity.ts:227-282 | a walk that found nothing missing extends the closed set that supports the refs, as far as the index tells |
| `Sweep.ReclaimSupports` | apps/api/src/sweep.ts:273-301 | what nothing marked names can go: the marked part still supports the refs |
| `RepositoryObject.Repository.Reset` | apps/api/src/sweep.ts:149-203 | the walk starts from exactly the refs, at the current version |
| `RepositoryObject.Repository.FinishMark` | apps/api/src/sweep.ts:262-271 | links are marked and the row finished in one transaction |
| `RepositoryObject.Repository.MarkBatch` | apps/api/src/sweep.ts:205-260 | a batch is a run of marking steps; it finishes rows, no more than the batch, or turns to sweeping, and stops only where a reset left a ref without an object |
| `RepositoryObject.Repository.SweepBatch` | apps/api/src/sweep.ts:273-301 | only unmarked objects are removed, no more than the batch, and the sweep completes exactly when none is left |
| `RepositoryObject.Repository.Resume` | apps/api/src/sweep.ts:100-128 | a walk is begun anew exactly when there is none of the current refs to go on with |
| `RepositoryObject.Repository.Step` | apps/api/src/sweep.ts:100-128 | one alarm turn is a run of the state machine, removes nothing a ref reaches, removes and finishes no more than its batch, keeps the refs whole where they were, fails only where a reset left a ref without an object, and always gets further |
| `RepositoryObject.Repository.SweepUntilComplete` | apps/api/src/repository-object.ts:102-113 | re-arming the alarm terminates, and what is left is exactly what was there and a ref reaches |
| `RepositoryObject.Repository.WriteObjects` | apps/api/src/repository-store.ts:810-813 | writing a pack adds its objects and changes nothing that was there |
| `RepositoryObject.Repository.VerifyAll` | apps/api/src/repository-store.ts:835-855 | every command is judged as if it were alone, although what one saw is carried to the next |
| `RepositoryObject.VisitedDoesNotMatter` | apps/api/src/connectivity.ts:200-282 | carrying `visited` from command to command changes no verdict |
| `RepositoryObject.Repository.ApplyUpdates` | apps/api/src/repository-store.ts:1268-1317 | one transaction moves all refs and counts itself in the version |
| `RepositoryObject.Repository.IsWholeIff` | apps/api/src/repository-store.ts:835-897 | whatever was pushed and imported, unless a reset tore them the refs are whole if and only if no tree behind them conceals a missing object |
| `RepositoryObject.Repository.UpdateRefs` | apps/api/src/repository-store.ts:835-897 | refs move for exactly the commands that find the ref as they say and whose tips the walk finds complete, for none of an atomic push with a rejection, and for all of one without; the report says so, and every other ref stays |
| `RepositoryObject.Repository.ReceivePack` | apps/api/src/repository-store.ts:760-897 | a push from commands to report is a run of the state machine; objects stay whatever becomes of it; a command is reported accepted only if the ref was what it says and is now what it wants |
| `RepositoryObject.PushesAreChained` | apps/api/src/repository-store.ts:760-897 | over any pushes of any clients, the accepted updates of a ref are a chain: each starts from exactly the value that the one before left, so none is overwritten unseen |
| `RepositoryObject.OneOfTwoWins` | apps/api/src/repository-store.ts:760-897 | of two pushes that saw the same value of a ref and want to move it, once the first is accepted the second is refused |
| `RepositoryObject.Repository.InstallBranch` | apps/api/src/repository-store.ts:492-517 | the refs and grafts are replaced if and only if the walk finds the branch complete |
| `RepositoryObject.Repository.ImportBranch` | apps/api/src/repository-store.ts:472-527 | an import is a run of the state machine that succeeds exactly when the walk finds what arrived complete, and otherwise changes no ref |
| `RepositoryObject.Repository.KeepGrafts` | apps/api/src/repository-store.ts:482-490 | the grafts kept are exactly the advertised ones that arrived as commits |
| `RepositoryObject.Repository.ResetImport` | apps/api/src/repository-store.ts:529-548 | a reset that runs through ends in the state of a new repository |
| `RepositoryObject.Repository.InterruptReset` | apps/api/src/repository-store.ts:529-548 | a reset that died after some objects is a run of the state machine; it left the refs whole if and only if it took nothing they need |
| `RepositoryObject.Repository.ReclaimUpTo` | apps/api/src/repository-store.ts:529-548 | objects are reclaimed one at a time, all or as many as there was time for, and nothing else changes |
| `Commands.ScreenCommands` | apps/api/src/git/receive-pack.ts:331-370 | each command gets the one reason it deserves, told from its fields, the commands before it and the refs, or none |
| `Commands.ScreenedIff` | apps/api/src/git/receive-pack.ts:331-370 | exactly one of the outcomes is deserved: ill named; named before; created though there; changed or deleted though not there; though the ref holds another value; or to go ahead, the ref being what the command says |
| `Commands.AcceptedAsMap` | apps/api/src/git/receive-pack.ts:330-370 | accepted commands are for different refs, so the refs do not depend on their order |
| `Depth.PlanDepth` | apps/api/src/git/upload-pack.ts:890-950 | the queue that grows as it is read terminates; it succeeds exactly when all within the depth can be read; each commit in reach gets its least generation however late a shorter way turned up |
| `Depth.GenerationCounts` | apps/api/src/git/upload-pack.ts:890-950 | the generation of a commit on a way from a want is one more than the number of commits left behind on it, tags not counted |
| `Depth.BoundaryIff` | apps/api/src/git/upload-pack.ts:890-950 | the client is told to cut behind exactly the commits within reach that the repository has cut itself, or that have parents and lie no nearer to a want than the depth; a root is not announced |
| `Depth.GraftIsExact` | apps/api/src/git/upload-pack.ts:890-950 | with history cut at the planned boundary, what can be walked to is exactly what lies within N generations of the wants and not behind a repository graft |
| `Fetch.Reachable` | apps/api/src/git/upload-pack.ts:249-331 | the stored objects reached outside the stops, each once; it fails exactly when it meets one that does not parse, or one missing that must not be |
| `Fetch.HeldObjects` | apps/api/src/git/upload-pack.ts:334-354 | which of the names are stored |
| `Fetch.ReadReachableObjects` | apps/api/src/object-store.ts:713-746 | which of the wanted objects the link index says the client owns |
| `Fetch.IndexKnowsOwned` | apps/api/src/object-store.ts:713-746 | what the index says the client owns, it owns; and it says so of everything once all is indexed |
| `Fetch.SubtractionLeavesClosed` | apps/api/src/git/upload-pack.ts:1026-1043 | after the set subtraction every ungrafted link of the client's graph leads to a sent or owned object, with stops at the haves and when old grafts are lifted |
| `Fetch.Subtract` | apps/api/src/git/upload-pack.ts:1043-1043 | the wanted objects that neither set of held objects names, each once |
| `Fetch.Send` | apps/api/src/git/upload-pack.ts:1023-1059 | a pack is sent exactly when the wanted walk succeeds, and then keeps all a fetch promises |
| `Fetch.UploadPack` | apps/api/src/git/upload-pack.ts:952-1059 | from request to objects: the client ends with a closed graph holding its wants, nothing it is known to own is sent, everything sent was asked for; a refusal names an object that really cannot be read |
| `Fetch.ClientOwns` | apps/api/src/git/upload-pack.ts:998-1007 | what the client's full walk holds it owns, also when a `have` is unknown here |
| `Transfer.ClientBases` | apps/api/src/git/upload-pack.ts:696-708 | the client's objects that a pack may base deltas on: those known to be held and, for a thin pack, exactly the bases of listed objects, not listed themselves, that the link index finds behind them |
| `Transfer.PackBytes` | apps/api/src/git/upload-pack.ts:684-867 | the frames written are those of a pack: header, bases first, one entry for each listed object chosen as its base allows at its place, and the digest of just that; bases outside it are owned by the client |
| `Transfer.WritePack` | apps/api/src/git/upload-pack.ts:712-867 | the same for an order that was found: windows planned, read ahead and emitted |
| `Transfer.Serve` | apps/api/src/git/upload-pack.ts:952-1063 | from request to frames: a response with a pack carries exactly what the plan found missing, as entries the client can take in |
| `Transfer.OwnedIsMine` | apps/api/src/git/upload-pack.ts:1026-1043 | what the server takes a client to own is in every set of the client's objects that holds its haves and has no loose end |
| `Transfer.TakingInCloses` | apps/api/src/git/upload-pack.ts:1026-1043 | with the missing objects taken in and the grafts moved as told, such a set and what arrived have no loose end together and hold the wants |
| `Transfer.DeepIsKept` | apps/api/src/git/upload-pack.ts:890-950 | whatever lies within the depth asked for, or, without one, behind the wants up to the grafts of either side, the client then has: old grafts of the client within the depth are lifted |
| `Transfer.ClientIsWhole` | apps/api/src/git/upload-pack.ts:952-1063 | a fetch end to end: taken off the wire and read against its own objects, the answer leaves an honest client with exactly what it had and what was sent, everything behind its wants down to the grafts it was told of, all that lies within the depth it asked for, and no loose end there, whatever else it keeps; the entries may be of any forms the objects took meanwhile |
| `Transfer.FetchAfterAnyRun` | apps/api/src/git/upload-pack.ts:952-1063 | so it does from any repository after any run of accepted and refused packs, forks, reclaims and repacking |
| `Transfer.FormsAreFaithful` | apps/api/src/repository-store.ts:456-470 | in every later state of the repositories an object is stored, if at all, in a form that gives the same bytes and type |
| `Transfer.FetchWhileChanging` | apps/api/src/repository-store.ts:456-470 | so it does while pushes, sweeps and repacking go on between planning and each entry, as long as the objects stay: each entry may be written from another state of the repositories |
| `Push.Unpack` | apps/api/src/repository-store.ts:810-827 | a pack read into the store adds exactly what the reader left of it, and each object is what its name means |
| `Push.Receive` | apps/api/src/repository-store.ts:760-897 | a push end to end, from the bytes behind its commands to the refs: a run of the state machine; refs move only for accepted commands, none if the pack is refused; what arrived stays |
| `Push.ReceiveImport` | apps/api/src/repository-store.ts:472-527 | an import end to end: a run of the state machine; the branch is installed if and only if its pack was taken in and the walk finds it complete |
| `Push.SentIsComplete` | apps/api/src/connectivity.ts:227-282 | a tip whose objects were sent with all they name, up to what refs reach, is found complete |
| `Push.HonestPushIsAccepted` | apps/api/src/repository-store.ts:760-897 | a client that sends such objects in any pack that stands for them, with commands for the refs as they are, is accepted unless there is no room: the store ends with exactly what it had and what was sent, and every ref moves |
| `Repack.InstallIsFaithful` | apps/api/src/repack.ts:227-256 | a delta against a candidate of the same bucket applies, is of one type with its base, and fits an entry; the stream it is kept in inflates to it |
| `Repack.DeltaIsGivenIff` | apps/api/src/repack.ts:209-256 | an object without a delta is given one if and only if there is room and the candidate of its type and power of two is another object, fits with it into 96 MiB, and gives a delta that, with its twenty bytes of base, compresses to less than seven eighths of the object compressed; it is the one built against it; otherwise the object becomes the candidate |
| `Repack.DeltaIsShorter` | apps/api/src/repack.ts:232-256 | so every delta that is given makes the object's entry shorter in every pack, header and base included |
| `Repack.InstallKeepsAcyclic` | apps/api/src/object-store.ts:1094-1122 | a delta against an object that has none closes no cycle |
| `Repack.PushesCanCycle` | apps/api/src/object-store.ts:446-461 | pushes and sweeps alone can leave a cycle of retained deltas, each of which is coherent |
| `Repack.ArrivalKeepsValid` | apps/api/src/object-store.ts:446-461 | whatever sound objects arrive, every delta and cache stays coherent: those retained, though their bases may be gone or return now, and those that arrive |
| `Repack.AcceptKeepsValid` | apps/api/src/object-store.ts:446-461 | so any pack the reader accepts keeps the store coherent |
| `Repack.RefusalKeepsValid` | apps/api/src/pack.ts:101-124 | and so does any pack that it refuses, or that it dies reading: any part of what any prefix of its entries gave |
| `Repack.ReaderLeaves` | apps/api/src/pack.ts:608-623 | what the reader leaves is always one of the two |
| `Repack.CopyIsFaithful` | apps/api/src/repository-store.ts:660-709 | an object that a fork copies, with its delta or without, is as coherent in the copy |
| `Repack.ReclaimKeepsValid` | apps/api/src/object-store.ts:1128-1162 | reclaiming an object keeps the others' deltas coherent |
| `Repack.TurnIsFaithful` | apps/api/src/repack.ts:208-265 | a turn keeps every delta and cache coherent |
| `Repack.TurnAddsNoCycle` | apps/api/src/repack.ts:208-265 | and closes no cycle of deltas |
| `Repack.TurnGrows` | apps/api/src/repack.ts:208-265 | and changes no object and no delta there was |
| `Repack.AlwaysCoherent` | apps/api/src/repack.ts:142-280 | over all runs of accepted and refused packs, forks, reclaims, repacking and fetches, over any repositories and in any order, every store can be served from: names mean their objects, caches inflate to what they stand for, deltas apply to their bases |
| `Repack.DeltasAlwaysApply` | apps/api/src/repack.ts:142-280 | over all such runs every retained delta whose base is stored gives its object, from a base of its type |
| `Repack.TurnsAreSafe` | apps/api/src/repack.ts:142-280 | any number of turns keep all of this, add no cycle and keep every delta there was |
| `Repack.PassTurnsEachOnce` | apps/api/src/repack.ts:142-280 | while the refs stay as they are, a pass turns every stored object that a ref reaches exactly once, in the order of their names, however its turns are cut |
| `Repack.Repacker.SelectOne` | apps/api/src/repack.ts:208-265 | the object is turned as specified: cached, then delta, candidate or neither |
| `Repack.Repacker.Step` | apps/api/src/repack.ts:142-280 | a turn waits unless a sweep of the current refs finished; else it turns the next objects in order, moves the cursor past them, and keeps every delta applying and every existing delta as it was |
| `Registry.RepositoryIndex.CreateRepository` | apps/api/src/repository-index.ts:159-201 | a name is taken at most once and only in an existing namespace |
| `Registry.RepositoryIndex.FinishImport` | apps/api/src/repository-index.ts:374-394 | only the reservation of this object becomes ready; every other row stays |
| `Registry.RepositoryIndex.DeleteImportIfOwned` | apps/api/src/repository-index.ts:334-355 | only the reservation of this object is removed; every other row stays |
| `Import.StepKeepsInv` | apps/api/src/import-operation.ts:148-237 | every call, however it ends, keeps job, checkpoint, contents and row consistent |
| `Import.StepKeepsInvIff` | apps/api/src/import-operation.ts:123-237 | of all steps that may happen, exactly three break the invariant: scheduling what is published or about to be, emptying from outside what is published, and an exception from closing its job in the run that fetched |
| `Import.RunKeepsInvIff` | apps/api/src/import-operation.ts:123-237 | so a run keeps the invariant at every point if and only if none of them happens |
| `Import.NeverDestroyedInUse` | apps/api/src/import-operation.ts:123-237 | over all such runs, with calls failing before or after they took effect, restarts anywhere and others changing the registry: no ready row points at emptied storage |
| `Import.OthersAreUntouched` | apps/api/src/import-operation.ts:188-237 | over all runs the operation changes, removes and makes no row of another object |
| `Import.NothingIsFetchedAgain` | apps/api/src/import-operation.ts:148-186 | once a checkpoint is durable nothing is reset or fetched again, unless a job is scheduled again |
| `Import.LostRepliesDoNotMatter` | apps/api/src/import-operation.ts:188-219 | publication is idempotent: after any lost replies and restarts the registry is as before or as one successful call leaves it, and always the latter once success is reported |
| `Import.PublicationIsTakenUp` | apps/api/src/import-operation.ts:154-157 | an interrupted publication is completed by one alarm whose calls are answered |
| `Import.LostReplyIsMadeGood` | apps/api/src/import-operation.ts:197-202 | so is one that succeeded without hearing so: the row found ready counts |
| `Import.OutcomeIsTrue` | apps/api/src/import-operation.ts:217-237 | reported success means the branch is stored and the job closed; reported failure means nothing is stored and no row names the object |
| `Import.FailureIsCleanedUp` | apps/api/src/import-operation.ts:221-237 | a recorded failure is cleaned up by one alarm whose calls are answered |
| `Import.TriedAgainIff` | apps/api/src/import-operation.ts:166-184 | after an exception the job is tried again if and only if the remote was unavailable and fewer than three tries were made; otherwise the failure recorded tells the error |
| `Import.ThirdTryCounts` | apps/api/src/import-operation.ts:166-184 | a remote that is unavailable twice, whether or not the fetches took effect, and then answers, is imported and published |
| `Import.ThreeTriesAreEnough` | apps/api/src/import-operation.ts:148-186 | one that is unavailable three times fails the job as that, with the storage emptied and the reservation withdrawn |
| `Import.ClosingMayThrowIff` | apps/api/src/import-operation.ts:166-184 | an exception from closing a published job is harmless if and only if the run did not fetch; otherwise the storage is destroyed under a ready row |
| `Import.SchedulingAgainEmptiesIff` | apps/api/src/import-operation.ts:123-134 | a job may be scheduled again, wherever a run is, if and only if the repository is not published and its publication not under way; between runs it empties what was published |
| `Import.SchedulingInPublicationEmpties` | apps/api/src/import-operation.ts:123-134 | a run in which a job scheduled during publication leaves the ready row with emptied storage |
| `Import.GivingUpIsSafeIff` | apps/api/src/repository-routes.ts:631-645 | a caller that gives up, withdrawing the reservation and destroying the object, leaves nothing behind if and only if nothing was published |
| `Import.LostScheduleReplyDestroys` | apps/api/src/repository-routes.ts:631-645 | the run in which the reply to scheduling is lost after publication: the caller that gives up then empties the storage under the ready row |
| `Import.ImportOperation.Execute` | apps/api/src/import-operation.ts:148-186 | with any failures, of reading the job or the checkpoint too, restarts and interference, the run is one of the steps above, and the retry loop ends |
| `Import.ImportOperation.Attempt` | apps/api/src/import-operation.ts:166-184 | one try is a run of the steps above, and what escapes is what its handler sees |
| `Import.ImportOperation.Publish` | apps/api/src/import-operation.ts:188-219 | publication is a run of the steps above |
| `Import.ImportOperation.Cleanup` | apps/api/src/import-operation.ts:221-237 | cleanup is a run of the steps above |
| `Import.ImportOperation.PersistScheduledJob` | apps/api/src/repository-object.ts:80-85 | the job takes the place of any other and the checkpoint is forgotten, at once, wherever a run is |
| `Import.ImportOperation.ReadCheckpoint` | apps/api/src/import-operation.ts:154-160 | where the run goes on is decided by the checkpoint as it is then |
| `Import.ImportOperation.Schedule` | apps/api/src/import-operation.ts:123-134 | scheduling persists the job, waits for a run under way and begins: a run of the steps above; only what persisting throws leaves the call, with or without the job persisted; what the run throws is reported as to be resumed |
| `CommitQueue.CommitDateQueue.Push` | apps/api/src/repository-store.ts:133-148 | the heap is the sorted queue with one more commit |
| `CommitQueue.CommitDateQueue.Pop` | apps/api/src/repository-store.ts:150-179 | the heap gives up the first of the sorted queue; nothing else is lost |
| `CommitQueue.RootComesFirst` | apps/api/src/repository-store.ts:181-186 | the root of a heap is the first of the same commits sorted |
| `CommitQueue.InsertedIsSorted` | apps/api/src/repository-store.ts:181-186 | insertion keeps the sorted queue sorted |
| `CommitQueue.LatestStands` | apps/api/src/repository-store.ts:181-186 | a commit that comes later goes behind all of its own date or a newer one and before all older: of equal dates the first to come leaves first |
| `History.PageIsSlice` | apps/api/src/repository-store.ts:997-1048 | a page has the commits of the full listing from its offset on, up to its limit or the end, whenever the full listing succeeds |
| `History.PageIff` | apps/api/src/repository-store.ts:997-1048 | a page is read if and only if the commits before its last one can be passed over: what is behind its last is not looked at, so a page can be read where the full listing fails |
| `History.ListingFailsIff` | apps/api/src/repository-store.ts:997-1048 | the full listing fails if and only if something reachable up to the grafts is not a commit, and the reason is true of such an object |
| `History.ListingIsReachable` | apps/api/src/repository-store.ts:997-1048 | the full listing is exactly the commits reachable without passing a graft, each once |
| `History.ListingIsDated` | apps/api/src/repository-store.ts:997-1048 | if no parent is newer than its child the listing is in order of date |
| `History.ParentsFollowChildren` | apps/api/src/repository-store.ts:997-1048 | if every parent is strictly older than its child, no parent precedes any of its children |
| `History.SkewedDatesReorder` | apps/api/src/repository-store.ts:181-186 | a history whose dates lie, in which a parent is listed before its child |
| `History.ReadHistory` | apps/api/src/repository-store.ts:997-1048 | the loop over the heap reads the specified page, or fails with the same reason |
| `ChunkedKv.WriteChunks` | apps/api/src/object-store.ts:1164-1169 | the store with every chunk of the bytes under its key |
| `ChunkedKv.WriteSomeChunks` | apps/api/src/object-store.ts:1164-1169 | stopped between any two writes, the first so many chunks are there and nothing else changed |
| `ChunkedKv.DeleteChunks` | apps/api/src/object-store.ts:1171-1175 | the store without the first so many chunks, and nothing else missing |
| `ChunkedKv.ReadChunks` | apps/api/src/object-store.ts:1337-1381 | the bytes are read if and only if every chunk is there and they have the declared size; one chunk or many |
| `ChunkedKv.WriteThenRead` | apps/api/src/object-store.ts:1164-1169 | what was written is what is read, at every length |
| `ObjectStore.StoredIsSound` | apps/api/src/object-store.ts:341-473 | a new object keeps every key accounted for and can be read, with its type, bytes, delta and the compressed form it came in, or, of a whole object that came without, a new one |
| `ObjectStore.DiscardedIsSound` | apps/api/src/object-store.ts:1218-1233 | deleting what the rows account for leaves no key of the object behind |
| `ObjectStore.StagedIsSound` | apps/api/src/object-store.ts:1177-1215 | the marker of a failed write accounts for chunks that may be there |
| `ObjectStore.ReservedIsSound` | apps/api/src/object-store.ts:1252-1281 | recording the chunk count first accounts for chunks before any is written |
| `ObjectStore.CachedIsSound` | apps/api/src/object-store.ts:1252-1281 | so stopping after any number of chunks, before or after the size is recorded, leaves nothing unaccounted for |
| `ObjectStore.SizeMustComeLastIff` | apps/api/src/object-store.ts:1252-1281 | the size may be recorded if and only if every chunk is there |
| `ObjectStore.InstallIsUndone` | apps/api/src/object-store.ts:1114-1121 | undoing a failed installation restores the store |
| `ObjectStore.InstallMustBeWhole` | apps/api/src/object-store.ts:1103-1113 | a delta's chunks without its row leave the store unsound if and only if there was anything to write: the writes have to be durable together |
| `ObjectStore.ObjectStore.Read` | apps/api/src/object-store.ts:538-548 | an object is read if and only if it is complete, and then with the bytes that are stored |
| `ObjectStore.ObjectStore.WriteBatch` | apps/api/src/object-store.ts:341-536 | it returns with every object complete, or throws; nothing that was complete changes either way; what became complete has the type, bytes, delta and compressed form the batch gave; the retry loop ends |
| `ObjectStore.ObjectStore.Transact` | apps/api/src/object-store.ts:411-478 | all or nothing; a row that exists stays with its chunks |
| `ObjectStore.ObjectStore.Settle` | apps/api/src/object-store.ts:480-495 | only rows that never became complete are removed, and exactly their objects are tried again |
| `ObjectStore.ObjectStore.Undo` | apps/api/src/object-store.ts:496-534 | only what this call claimed is removed, also if marking or removing fails |
| `ObjectStore.ObjectStore.Reclaim` | apps/api/src/object-store.ts:1128-1162 | no row and no key of the object remains, whatever an interrupted cache left; other objects are untouched |
| `ObjectStore.ObjectStore.CacheFullCompression` | apps/api/src/object-store.ts:1252-1281 | wherever it stops, between two chunks too, and whether or not its clean-up runs, every key is accounted for; if it succeeds the cached form is that of the object's own bytes |
| `ObjectStore.ObjectStore.InstallDelta` | apps/api/src/object-store.ts:1094-1122 | the delta is installed exactly where there was none, or the store is as before |
| `StoreRefinement.BatchIsRefined` | apps/api/src/object-store.ts:341-536 | for the pack reader and the repacker, writing a batch adds its objects, each as it came, to those that are stored, and a write that fails adds some of them |
| `StoreRefinement.NewIsOfBatch` | apps/api/src/object-store.ts:413-473 | an object that became complete is the one of the batch with its name, in all its forms |
| `StoreRefinement.ReclaimIsRefined` | apps/api/src/object-store.ts:1128-1162 | reclaiming an object removes it and its delta |
| `StoreRefinement.InstallIsRefined` | apps/api/src/object-store.ts:1094-1122 | installing a delta gives it to its object in both its forms and changes nothing else |
| `StoreRefinement.CacheIsRefined` | apps/api/src/object-store.ts:1252-1281 | caching an object gives it the compressed form of its bytes and changes nothing else |
| `StoreRefinement.ReadIsRefined` | apps/api/src/object-store.ts:538-548 | what is read of an object is its bytes |

## Left out

- Native inflation (apps/api/src/pack.ts:444-463) is taken to agree with the decompressor, and compression is any function whose streams inflate; SHA-1 is any function from bytes to digests.
- Timings, counters, log lines and text decoding are not modelled.
- Bit operators on numbers are written as division, remainder and multiplication; 32-bit truncation is modelled only where `HighFits` shows that it does not happen.
- After an exception of the decompressor, the frame writer or the pack reader the object is dropped; its state is not described.
- SQL queries are maps, selections in order, and least fixed points; batch sizes of single statements (98 or 100 names) are not visible in a result and are left out.
- The bytes of commits, trees and tags are not parsed: an object is what it links to, or is garbled; `Transfer` takes any parser, the same on both sides.
- HEAD, its retargeting, tags peeled for advertisement, tokens, routes and cursors are left out; no modelled operation writes a detached HEAD.
- The walk that selects what a fork copies is left out; the copies are events of `Repack`, and the completion is a step of `Sweep`.
- Alarms and the gate that runs one operation at a time: a step may begin whenever none is under way, which allows more runs than alarms do.
- Incomplete rows are modelled in `ObjectStore` only; elsewhere a stored object is complete, as `StoreRefinement` shows it.
- The compression cache of retained deltas works as that of full objects and is not repeated; reclaimed byte counts are not modelled.
- Scheduler.Emit: waiting for a read and copying its bytes are one step. A fetch does not hold the gate while its pack streams (apps/api/src/repository-store.ts:456-470): `FetchWhileChanging` lets the repositories change between planning and each entry, but takes what one entry reads to be of one state; an object that is gone by then ends the fetch with an exception. Cached chunks are read as the streams they hold.
- UploadPack: negotiation lines are modelled as the objects they acknowledge, not as text; framing is that of `PackFrames`.
- Transfer.ClientIsWhole: the pack is on the data band; without a band its frames are its bytes, as `BareFrames` says, and nothing is left to take apart.
- Repacker.Step: indexing the links of an object before it is turned is left out, because it changes no object and no delta.
- PackReader.ReadPack: when two different objects share a name, only that what was stored stays is promised, because what the code takes for the base of a later delta then depends on its caches.
- Wire grammar of requests, capabilities, protocol version 2, redirects and gzip bodies are left out as shallow.

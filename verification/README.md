# Verified model of the registry, storage and dispatch cores

This project models the parts of the content pipeline where correctness is least obvious, and proves
what they promise for every input, every run and every interleaving. `dafny verify dfyconfig.toml`
checks all of it.

Four groups of modules, each following the source file it models:

* **Archives** (`Crc32`, `ArchivePath`, `Entries`, `TarField`, `Tar`, `TarSurvival`, `Zip`, `ZipRoundTrip`,
  `SplitArtifact`, `ArchiveCreation`, on top of `Bytes`). A ustar writer and reader, a zip writer and reader,
  the table-driven CRC-32, the path normaliser, bounded validation and the digest-tree comparison. Buffers
  written in place are arrays; each writing and reading loop is a method proved against a function on byte
  sequences. `PathSpelling`, `TarNumber`, `TarLayout`, `ZipLayout` and `ArchiveDetection` define the formats
  on their own, by bytes at offsets and by concatenation, and prove that those functions read and write
  exactly them.
* **Chunks** (`Chunking`, `ChunkStore`). The gear-hash chunker and the deduplicating store that ingest
  writes and restore reads.
* **Dispatch** (`DispatchStore`, `ClaimDrain`, `DispatchHistory`, `DispatchRecords`, `RunHistory` for the
  in-memory outbox; `DispatchProtocol`, `DispatchRuns`, `DispatchPasses` for several workers with crashes and
  lost messages against a per-row compare-and-set claim; `DispatchRuntime` for one worker's pass).
* **Idempotency** (`StableJson`, `PlainJson`, `OutputWorkflow`, `UploadSession`, `UploadHistory`,
  `UploadDecisions`, `CompletionKeys`, `IdempotentWrites`, `Rethrows`, `WriteRules`, `DownloadLinks`,
  `DeliveryRules`). Canonical request fingerprints, upload sessions whose completion waits for a
  canonicalisation, concurrent unique inserts with replay, and one-time download links.

Calls that wait at an `await` are a begin step and a finish step; the runs in the theorems interleave them
freely. Deflate, gzip, SHA-256, DOS time stamps, clocks, id generators, handlers, workflow clients and the
locale's order of strings are parameters: theorems that need a law of one of them (inflating undoes
deflating, no digest collisions, a total order, ids that do not repeat) state it as a hypothesis. Composite
string keys are tuples.

## Findings

* A normalised path longer than 100 bytes without a `/` exactly 101 bytes before its end is written to a
  tar header without an error and reads back as a different path (`Tar.LongNameIsCut`;
  `Tar.StoredPathSurvives` says exactly which paths survive, `ArchiveCreation.SplitSurvives` which archives).
* Up to key order, undefined members and non-finite numbers (printed as `null`), the fingerprint printer
  tells all values apart but one pair: an array holding one undefined prints like the empty array
  (`StableJson.LoneUndefinedCollides`; `PlainJson.PlainPrintsApart` for the values it does not touch).
* The in-memory completion key does not contain the session. A call that finds an answer under its key gets
  that answer, whichever session it was for, or a conflict if the hashes differ (`CompletionKeys.KeyDecides`,
  `CompletionKeys.SequentialReplay`); it names the requested session exactly if the latest answer did
  (`CompletionKeys.NamesRequestedExactly`). Two calls under one key that wait at the same time are both accepted,
  even for two sessions and with different hashes, and the record of the key is overwritten
  (`CompletionKeys.ConcurrentOverwrite`).
* Two concurrent creates on one existing asset under different keys can pick the same version number; the
  slower one ends with the database's unique-constraint error instead of trying again, unless meanwhile
  another caller got through under its own key (`Rethrows.RethrownExactly`, `Rethrows.RethrownByRival`,
  and the runs `Rethrows.RivalIsRethrown` and `Rethrows.OwnKeyReplays`).
* Recording a workflow start can be lost after the workflow has started; the dispatch then becomes retryable
  and, if it settles at all, settles as `duplicate` (`DispatchRuns.LostStartEndsDuplicate`). That is also the
  only way to end as `duplicate` (`DispatchPasses.DuplicateExactly`), and it happens
  (`DispatchPasses.LostStartIsReachable`).

## Model
| member | source | states |
|---|---|---|
| Crc32.ChecksumIsReference | packages/storage/src/split-artifact-adapters.ts:372-386 | For every buffer the table-driven CRC is the bit-at-a-time reflected CRC-32 with polynomial 0xEDB88320 and inverted start and end (section 8 of RFC 1952). |
| Crc32.RegisterConcat | packages/storage/src/split-artifact-adapters.ts:380-386 | The state before the final inversion composes over concatenation: the CRC of a buffer can be continued from the state left by its front. |
| Crc32.ByTableIsEightSteps | packages/storage/src/split-artifact-adapters.ts:372-384 | One table lookup and shift is eight single-bit steps, for every register and byte. |
| Crc32.RegisterIsDivision | packages/storage/src/split-artifact-adapters.ts:380-386 | A whole message acts on the register as one little-endian number shifted out bit by bit. |
| Crc32.RegisterInjective | packages/storage/src/split-artifact-adapters.ts:380-386 | Two different register values stay different over any common continuation. |
| Crc32.ChecksumDetectsBurst | packages/storage/src/split-artifact-adapters.ts:380-386 | Equal-length buffers that differ only within four consecutive bytes have different CRCs, at any length and position. |
| Crc32.BuildTable | packages/storage/src/split-artifact-adapters.ts:372-378 | The loops fill 256 words with the table the proofs are about. |
| Crc32.Compute | packages/storage/src/split-artifact-adapters.ts:380-386 | The checksum loop, run with any table those loops built, returns the reference CRC-32. |
| ArchivePath.NormalizeIsSafe | packages/storage/src/split-artifact-adapters.ts:173-187 | Whatever the normaliser accepts is a relative path without empty, `.` or `..` segments, backslashes or a drive prefix. |
| ArchivePath.NormalizeIdempotent | packages/storage/src/split-artifact-adapters.ts:173-187 | Normalising a normal form changes nothing, and the fixed points of the normaliser are exactly the safe paths. |
| ArchivePath.SafeIsFixed | packages/storage/src/split-artifact-adapters.ts:173-187 | A safe path passes the normaliser untouched. |
| PathSpelling.NormalizesExactly | packages/storage/src/split-artifact-adapters.ts:173-187 | The normaliser accepts exactly the spellings of a relative path (either slash, repeated, leading, around `.` segments and spaces) and answers with its segments joined by single slashes; the spellings are defined by concatenation, without it. |
| Entries.ValidateEntries | packages/storage/src/split-artifact-adapters.ts:189-227 | The validation loop, with its running set and total, returns the normalised entries in order or the first failure. |
| Entries.ValidateMeaning | packages/storage/src/split-artifact-adapters.ts:189-227 | Validation accepts exactly the lists whose paths are safe, distinct after normalising, and within all three limits, and then returns them with only the paths normalised. |
| Entries.ValidationRefuses | packages/storage/src/split-artifact-adapters.ts:189-227 | A refused list has too many entries, or is refused for the first entry that the acceptable ones before it do not allow, with the error for what is wrong with that entry. |
| Entries.NormalFormIsStable | packages/storage/src/split-artifact-adapters.ts:189-227 | Validated entries need no further change: under any other limits they are only checked again. |
| TarField.OctalFieldRoundTrip | packages/storage/src/split-artifact-adapters.ts:143-167 | An octal field of a given width prints and reads back a number exactly when it is below 8^(width-1). |
| TarField.CutPadded | packages/storage/src/split-artifact-adapters.ts:143-147 | Zero padding of a text field is undone by cutting at the first NUL exactly when the text has none. |
| TarNumber.ParsesExactly | packages/storage/src/split-artifact-adapters.ts:143-167 | The number parser answers a value exactly if the field means it: an optional sign and octal digits between blanks, before anything else, cut at the first NUL. |
| Tar.WriteTarHeader | packages/storage/src/split-artifact-adapters.ts:319-354 | Writing the 512-byte header in place, field by field and then the checksum over it, gives the header of the entry or the too-long error. |
| Tar.ChecksumRule | packages/storage/src/split-artifact-adapters.ts:345-351 | The checksum field of a written header reads back as the byte sum taken with that field blank, as the ustar format asks, and the sum always fits its six digits. |
| Tar.ReadWrittenHeader | packages/storage/src/split-artifact-adapters.ts:282-354 | A written header reads back as the stored path, the exact size below 8^11, and the truncated mode and time. |
| Tar.StoredPathSurvives | packages/storage/src/split-artifact-adapters.ts:319-331 | A normalised path of at most 256 bytes comes back from its header exactly when it is free of NUL and at most 100 bytes long or has `/` at index length-101. |
| Tar.LongNameIsCut | packages/storage/src/split-artifact-adapters.ts:322-331 | A concrete 101-byte path without a slash is written without an error and reads back as another path. |
| Tar.WriteTar | packages/storage/src/split-artifact-adapters.ts:356-370 | The packing loop concatenates headers, data, padding and the closing blocks. |
| Tar.PackShape | packages/storage/src/split-artifact-adapters.ts:229-235 | Entries whose paths fit are always packed, into whole blocks that the format detection recognises. |
| Tar.TarRoundTrip | packages/storage/src/split-artifact-adapters.ts:278-370 | For entries whose paths fit and whose sizes fit the field, unpacking what was packed is validating the same entries: nothing lost, added or reordered. |
| TarSurvival.ArchiveSurvives | packages/storage/src/split-artifact-adapters.ts:278-370 | Of all archives the packer writes, with sizes below 8^11 and under limits the entries meet, exactly those come back with their paths whose every path fits a header. |
| Tar.ReadTarArchive | packages/storage/src/split-artifact-adapters.ts:278-317 | The reading loop over offsets terminates on every buffer and returns what the block-by-block reader does. |
| Tar.UnpackTarSound | packages/storage/src/split-artifact-adapters.ts:278-317 | For every buffer that unpacks: each entry is an exact slice of the input, the slices ascend with a header between them, 512 per entry plus the data fits the buffer, every limit is met, and paths are safe and distinct. |
| TarLayout.UnpacksLayout | packages/storage/src/split-artifact-adapters.ts:278-317 | Of any buffer laid out as blocks with the ustar fields at their offsets (any prefix, mode and time, files and directories, up to a zero block or the end), unpacking is validating its regular files in order; if a header has another type, a bad number, an unsafe path or data past the end, it is refused for the first such header. |
| TarLayout.EveryBufferIsLaidOut | packages/storage/src/split-artifact-adapters.ts:278-317 | Every buffer is laid out in that sense, up to its end or to a first bad header, so the theorem above settles what unpacking makes of any input. |
| TarLayout.PacksLayout | packages/storage/src/split-artifact-adapters.ts:319-370 | A packed archive is one block per entry, with each ustar field at its offset, and 1024 zeros. |
| Zip.WriteZip | packages/storage/src/split-artifact-adapters.ts:477-539 | The packing loop with its running offset and in-place header writes produces local records, directory and end record, or the range error of a 16- or 32-bit field. |
| Zip.FindEndOfCentralDirectory | packages/storage/src/split-artifact-adapters.ts:388-396 | The backwards scan over the last 65,557 bytes returns what the search function says. |
| Zip.FindEndIsLast | packages/storage/src/split-artifact-adapters.ts:388-396 | The search finds the last end signature in its window and fails exactly when there is none. |
| Zip.ReadZipArchive | packages/storage/src/split-artifact-adapters.ts:398-466 | The directory loop over count and offset reads, decompresses and checks each entry, and validates the result. |
| ZipLayout.UnpacksLayout | packages/storage/src/split-artifact-adapters.ts:398-466 | Of any buffer laid out as sections 4.3.7, 4.3.12 and 4.3.16 of APPNOTE.TXT say (records with any name, extra field and comment, local headers with name and extra lengths of their own, stored or deflated data, anywhere), unpacking is validating exactly its files that are no directories, in directory order; if a member cannot be read it is refused for the first one. Said with bytes at offsets alone. |
| ZipLayout.UnpacksExactly | packages/storage/src/split-artifact-adapters.ts:398-466 | So it unpacks exactly if no member is encrypted, unsafe, of another method, corrupt or failing its size and CRC, no record is missing, and the files are acceptable. |
| ZipLayout.NoEndIsRefused | packages/storage/src/split-artifact-adapters.ts:388-404 | A buffer with no end signature in its last 65,557 bytes is refused for that. |
| ZipLayout.PacksLayout | packages/storage/src/split-artifact-adapters.ts:477-539 | A packed archive is, byte for byte, the local headers (with CRC and both sizes) and data of its entries, their directory records at the right offsets, and the end record. |
| ZipRoundTrip.ReadWrittenCentral | packages/storage/src/split-artifact-adapters.ts:477-539 | A written directory record reads back field by field, and the next record follows it. |
| ZipRoundTrip.ZipRoundTrip | packages/storage/src/split-artifact-adapters.ts:398-539 | Every archive the packer produces unpacks to exactly its entries in order, under normalised paths, with both passes agreeing; only the limits can refuse it. |
| ZipRoundTrip.UnpackZipRejectsChange | packages/storage/src/split-artifact-adapters.ts:398-466 | If an archive unpacks, a copy that differs only in up to four consecutive bytes of the data of one uncompressed entry is refused, whatever the length of the entry, as long as that data lies before the directory and the end record. |
| SplitArtifact.SplitArchive | packages/storage/src/split-artifact-adapters.ts:541-561 | The format is detected by filename and content, the archive unpacked by its reader and its length reported; anything undetected is refused. |
| SplitArtifact.CreateArchive | packages/storage/src/split-artifact-adapters.ts:563-575 | Validation under the default limits, then the writer for the format. |
| SplitArtifact.NamesAreClaimed | packages/storage/src/split-artifact-adapters.ts:267-273 | A name claims a format exactly if it is some stem and one of the endings of the format. |
| ArchiveDetection.DetectsExactly | packages/storage/src/split-artifact-adapters.ts:229-276 | A file is detected as a format exactly if it is named for it and its content fits: whole blocks from 1024 bytes on with the magic or a zero first block, the gzip of such, or an end signature in the last 65,557 bytes. |
| ArchiveDetection.SplitsAsNamed | packages/storage/src/split-artifact-adapters.ts:541-561 | A file that is so named and fits is unpacked as that format, and its own length reported. |
| ArchiveDetection.OthersAreRefused | packages/storage/src/split-artifact-adapters.ts:541-561 | Any other file is refused as unsupported. |
| SplitArtifact.CompareMeaning | packages/storage/src/split-artifact-adapters.ts:608-620 | The digest-tree comparison answers yes exactly when both lists hold the same set of normalised paths and bytes, in whatever order. |
| SplitArtifact.RoundTrip | packages/storage/src/split-artifact-adapters.ts:541-575 | For tar, gzip-tar, unitypackage and zip: splitting a created archive, named with an ending of its format, is detected, and succeeds or fails exactly as validating the same entries under the split's own limits. |
| SplitArtifact.RoundTripSucceeds | packages/storage/src/split-artifact-adapters.ts:541-620 | Under the default limits the round trip of a created archive succeeds with the same format, the same normalised paths and bytes in order, and an equal digest tree. |
| ArchiveCreation.PackZipExactly | packages/storage/src/split-artifact-adapters.ts:477-539 | Packing a zip of entries under normalised paths succeeds exactly if the entry count, name lengths and DOS fields are below 2^16, and the file sizes, the bytes before the directory and the directory itself below 2^32. |
| ArchiveCreation.CreateExactly | packages/storage/src/split-artifact-adapters.ts:563-575 | Creating an archive succeeds exactly for entries that validation accepts and that fit: the bounds above for a zip, normalised paths of at most 256 bytes for the tar formats. |
| ArchiveCreation.CreateRefuses | packages/storage/src/split-artifact-adapters.ts:563-575 | What is not created is refused by validation, for the first path beyond 256 bytes, or because a number does not fit its zip field. |
| ArchiveCreation.CreatedComesBack | packages/storage/src/split-artifact-adapters.ts:541-620 | Said of the entries alone: if they are acceptable and fit, creating succeeds, and splitting it under a name of the format gives the same format, paths and bytes in order, and an equal digest tree. |
| ArchiveCreation.SplitSurvives | packages/storage/src/split-artifact-adapters.ts:541-575 | Of the tar archives that can be created, splitting gives back the paths of exactly those whose every path fits a header. |
| Chunking.ChunkBuffer | scripts/xet-benchmark.js:63-93 | The loop over one index with `chunkStart` and a 32-bit fingerprint returns the chunks of the buffer. |
| Chunking.ChunksMeaning | scripts/xet-benchmark.js:63-93 | The output is the one and only way to cut the buffer at the first opportunity, again and again. |
| Chunking.ChunkSizes | scripts/xet-benchmark.js:63-93 | Chunks concatenate to the buffer; all but the last have a size in [MIN, MAX], the last in (0, MAX]. |
| Chunking.ScriptChunks | scripts/xet-benchmark.js:25-93 | With the script's own constants: chunks of 32 to 128 KiB, the last possibly shorter, and a cut exactly from 32 KiB on where the low 17 bits of the fingerprint are zero, or at 128 KiB. |
| Chunking.FingerprintIsSum | scripts/xet-benchmark.js:72-73 | The rolling fingerprint is the weighted gear sum of the chunk so far, modulo 2^32. |
| Chunking.FingerprintWindow | scripts/xet-benchmark.js:72-77 | The low mask bits of the fingerprint are the weighted gear sum of as many last bytes, and of nothing before them. |
| Chunking.CutIsLocal | scripts/xet-benchmark.js:74-81 | Whether to cut depends only on the chunk size and the last 17 bytes (in general: mask-width many). |
| Chunking.CutResynchronises | scripts/xet-benchmark.js:63-93 | If a prefix ends at a cut, the chunks of the whole are those of the prefix followed by those of the rest. |
| Chunking.EditsResynchronise | scripts/xet-benchmark.js:63-93 | Two versions that both have a cut at the same place of a common suffix share every chunk from there on. |
| Chunking.AppendKeepsChunks | scripts/xet-benchmark.js:63-93 | Appending bytes keeps every chunk but possibly the last. |
| ChunkStore.ChunkRepository.IngestFile | scripts/xet-benchmark.js:128-192 | The ingest loop writes each unknown chunk once, collects terms, uploaded and reused digests and stored bytes, and persists the manifest. |
| ChunkStore.ChunkRepository.RestoreTerms | scripts/xet-restore.js:44-55 | The restore loop reads the chunk of each term in start order and concatenates them, or fails on a missing file. |
| ChunkStore.IngestAccounts | scripts/xet-benchmark.js:132-192 | One ingest keeps every stored chunk, uploaded plus reused counts equal the chunk count, and the reported stored bytes are what the store gained. |
| ChunkStore.IngestSays | scripts/xet-benchmark.js:128-192 | One ingest uploads exactly the chunks that are new where they come, reuses the others in order, and files a manifest with the digests, one of them a sha256, the length and the terms, under their hash. |
| ChunkStore.StoredBytesAddUp | scripts/xet-benchmark.js:138-159 | Over every sequence of ingests the reported stored byte lengths sum to the growth of the store. |
| ChunkStore.RestoreAfterAll | scripts/xet-restore.js:43-55 | Over every sequence of ingests, any file ingested on the way is restored at the end byte for byte, from its evidence with the terms in any order. |
| ChunkStore.RestoreByIdAfterAll | scripts/xet-restore.js:36-55 | The same, asked for by file id through its manifest. |
| ChunkStore.ReingestStoresNothing | scripts/xet-benchmark.js:140-159 | Ingesting a file again, however much later, uploads no chunk and stores zero bytes. |
| ChunkStore.SharedRestIsReused | scripts/xet-benchmark.js:140-159 | If `p` and `q` end at cuts, ingesting `q+s` after `p+s` reuses at least as many chunks as `s` has. |
| StableJson.PrintIsCanonical | apps/api/src/public/output-workflow-service.ts:89-103 | Two values print the same exactly when they mean the same: equal up to object key order and undefined members, with non-finite numbers meaning null and an array of one undefined the empty array. Meanings are maps and sequences, defined without printing or sorting. |
| StableJson.PrintDecodes | apps/api/src/public/output-workflow-service.ts:89-103 | The printed text is prefix-decodable: followed by a comma, a bracket or the end, it determines the meaning and where it stops. |
| StableJson.MeaningPrints | apps/api/src/public/output-workflow-service.ts:89-103 | Values with the same meaning print the same text under any total order of keys. |
| StableJson.LoneUndefinedCollides | apps/api/src/public/output-workflow-service.ts:90-92 | The one collision: an array of a single undefined prints like the empty array. |
| PlainJson.PlainPrintsApart | apps/api/src/public/output-workflow-service.ts:89-103 | Values with no array of exactly one undefined and no non-finite number anywhere print the same exactly when they are the same up to key order and undefined members. |
| OutputWorkflow.FingerprintMeaning | apps/api/src/public/output-workflow-service.ts:105-114 | Fingerprints are equal exactly for the same asset, kind, scope (empty meaning none), workflow and version, with parameters equal up to key order and undefined members. |
| OutputWorkflow.InMemoryOutputWorkflowStore.TriggerOutputWorkflow | apps/api/src/public/output-workflow-service.ts:138-166 | A trigger replays, refuses, or runs the handler and stores a copy of its record, changing nothing on an error. |
| OutputWorkflow.FirstAnswer | apps/api/src/public/output-workflow-service.ts:138-166 | As long as no trigger under its key has succeeded, a trigger is answered with what its own handler returns, an empty URL left out, or with the reason why there is nothing. |
| OutputWorkflow.ReplayOrConflict | apps/api/src/public/output-workflow-service.ts:138-166 | Over any run, once a key has succeeded its handler never runs again: a later trigger gets the same record if it asks for the same thing, and a conflict exactly if it does not. |
| OutputWorkflow.NoConflictBeforeSuccess | apps/api/src/public/output-workflow-service.ts:141-150 | A conflict is only ever raised for a key that an earlier trigger succeeded with. |
| DispatchStore.InMemoryWorkflowDispatchStore.constructor | packages/registry/src/workflow-dispatch-store.ts:221-248 | Seeding inserts the dispatches in order with their defaults, a repeated id replacing the earlier one in place. |
| DispatchRecords.SeedsShow | packages/registry/src/workflow-dispatch-store.ts:221-248 | A store starts with exactly the ids of its seeds, each as the last seed of that id says: pending, at token one, from 1 January 2026 and unchanged since, where it does not say otherwise. |
| DispatchStore.InMemoryWorkflowDispatchStore.ClaimPendingDispatches | packages/registry/src/workflow-dispatch-store.ts:250-278 | The scan over the sorted dispatches claims the oldest eligible ones up to the limit, each with a new token, and leaves the others alone. |
| DispatchStore.InMemoryWorkflowDispatchStore.RecordStarted | packages/registry/src/workflow-dispatch-store.ts:293-336 | Recording a start changes the dispatch and upserts its run, or refuses with the error of the first failed check; it never finds a run missing. |
| DispatchStore.InMemoryWorkflowDispatchStore.RecordDuplicate | packages/registry/src/workflow-dispatch-store.ts:338-365 | Recording a duplicate overwrites the run with the observed state, under the same checks. |
| DispatchStore.InMemoryWorkflowDispatchStore.RecordFailure | packages/registry/src/workflow-dispatch-store.ts:367-402 | Recording a failure sets the target state, failure class and retry summary, under the same checks. |
| DispatchStore.InMemoryWorkflowDispatchStore.UpsertWorkflowRun | packages/registry/src/workflow-dispatch-store.ts:421-504 | The upsert keeps the id of an existing run, creates one under the generated id otherwise, and in a valid store never fails. |
| ClaimDrain.QueueIsByAge | packages/registry/src/workflow-dispatch-store.ts:254-266 | What a claim draws from holds exactly the pending and retryable dispatches, by creation time and then id. |
| ClaimDrain.ClaimsTheOldest | packages/registry/src/workflow-dispatch-store.ts:250-278 | A claim hands out what was pending or retryable, oldest first and each once, and leaves any of it only if its limit is reached and all it claimed is older. |
| ClaimDrain.QueueAfterClaim | packages/registry/src/workflow-dispatch-store.ts:250-278 | One claim leaves in the queue exactly what it did not take. |
| ClaimDrain.ClaimsTakeThePrefix | packages/registry/src/workflow-dispatch-store.ts:250-278 | Successive claims with no outcome in between return batches whose concatenation is the front of the sorted eligible dispatches, as long as the limits allow. |
| ClaimDrain.BatchesDisjoint | packages/registry/src/workflow-dispatch-store.ts:250-278 | No dispatch is in two of those batches. |
| ClaimDrain.ClaimsTouchOnlyTheirs | packages/registry/src/workflow-dispatch-store.ts:250-278 | Dispatches in no batch stay as they were. |
| ClaimDrain.DrainedWhen | packages/registry/src/workflow-dispatch-store.ts:250-278 | With one positive limit the queue is empty after k claims exactly when k is at least ceil(n/limit). |
| DispatchHistory.TokensGrow | packages/registry/src/workflow-dispatch-store.ts:250-402 | Over every run tokens never go back, and a dispatch whose token stays has not changed at all. |
| DispatchHistory.FinalIsAbsorbing | packages/registry/src/workflow-dispatch-store.ts:293-402 | A `started`, `duplicate` or `failed_terminal` dispatch never changes again. |
| DispatchHistory.OneRecordPerToken | packages/registry/src/workflow-dispatch-store.ts:404-419 | Over every run at most one recording call per presented token goes through. |
| DispatchHistory.OneClaimPerToken | packages/registry/src/workflow-dispatch-store.ts:268-274 | Over every run no two claims hand out a dispatch with the same token. |
| DispatchRecords.RepliesExactly | packages/registry/src/workflow-dispatch-store.ts:404-419 | A record goes through exactly for a known dispatch under its current token that is being started; else the first of these that fails is the error. |
| DispatchRecords.LastChangeShows | packages/registry/src/workflow-dispatch-store.ts:250-419 | Over every run a dispatch shows the last claim or record that went through for it: state, times, failure class and retry summary, and one more on the token; all else is as it was before. |
| DispatchRecords.DuplicateShows | packages/registry/src/workflow-dispatch-store.ts:338-365 | The run of a recorded duplicate shows the observed state, or running, and the facts of its dispatch, under the id the workflow had or the generated one. |
| DispatchRecords.StartShows | packages/registry/src/workflow-dispatch-store.ts:293-336 | The run of a recorded start is queued for this dispatch if it is new; else it keeps what it was and fills in what was missing. |
| DispatchHistory.RecordsFollowClaims | packages/registry/src/workflow-dispatch-store.ts:293-419 | An outcome is only recorded under a token that an earlier claim handed out, or that was seeded as being started. |
| DispatchHistory.RunMapsStayConsistent | packages/registry/src/workflow-dispatch-store.ts:421-504 | With generated ids that do not repeat, the two run maps stay inverse to each other over every run. |
| DispatchHistory.NoRunIsMissing | packages/registry/src/workflow-dispatch-store.ts:424-431 | The missing-run error is unreachable from any seeding and run, whatever the id generator answers; this follows directly from what every step keeps. |
| DispatchHistory.StartKeepsProgress | packages/registry/src/workflow-dispatch-store.ts:309-335 | One recorded start, by unfolding it: an existing run keeps its id, creation, start time, first dispatch and, once it left the queue, its state and phase; a new run is queued for this dispatch. |
| RunHistory.RunsAreKept | packages/registry/src/workflow-dispatch-store.ts:293-504 | Over every run of operations a workflow that has a run keeps that run under the one id it was given; and it keeps creation, state, start time, first dispatch and settled phase for as long as nothing is recorded as a duplicate of it. |
| DispatchProtocol.StepKeepsInv | packages/registry/src/prisma-workflow-dispatch-store.ts:156-206 | Every step of several workers (snapshot, per-row compare-and-set, commit or rollback, start, record, lost requests and answers, crash, new intents) keeps the protocol invariant. |
| DispatchRuns.OutcomeTellsTheStart | packages/workflows/src/dispatch-runtime.ts:148-204 | In every reachable state `started` and `duplicate` imply the workflow was really started, a dispatch whose workflow started is never `failed_terminal`, and it is `started` exactly if started under the recorded token, `duplicate` exactly if under an older one. |
| DispatchRuns.LostStartEndsDuplicate | packages/workflows/src/dispatch-runtime.ts:160-204 | When recording a start was lost so that the dispatch became retryable although its workflow runs, any outcome it settles on later is `duplicate`. |
| DispatchPasses.DuplicateExactly | packages/workflows/src/dispatch-runtime.ts:148-204 | Over every run, a settled dispatch is `duplicate` exactly if at some earlier time it was recorded as retryable while its workflow was running. |
| DispatchPasses.LostStartIsReachable | packages/workflows/src/dispatch-runtime.ts:148-204 | A concrete run: claimed, started, the record of the start lost, recorded as retryable; then claimed again and settled as `duplicate`. |
| DispatchPasses.CountsAddUp | packages/workflows/src/dispatch-runtime.ts:140-206 | Whenever a worker's pass returns normally, each of its four counts is the number of tickets of its batch recorded with that outcome, and together they are what it claimed. |
| DispatchPasses.AttemptDecides | packages/workflows/src/dispatch-runtime.ts:140-206 | One attempt and its record: terminal for an unknown template, retryable if the start or its answer was lost, duplicate if the workflow was running, started if not; counted once, and nothing else changes. |
| DispatchPasses.LostRecordDecides | packages/workflows/src/dispatch-runtime.ts:160-206 | A record whose answer is lost: of a start, a retryable failure is recorded next; of anything else, the pass ends. |
| DispatchRuns.TicketsAreExclusive | packages/registry/src/prisma-workflow-dispatch-store.ts:171-202 | No (dispatch, token) pair is handed out twice, recorded twice or held by two workers. |
| DispatchRuns.RunsAreLater | packages/registry/src/prisma-workflow-dispatch-store.ts:171-202 | Over every run tokens never go back, settled rows never change, and who started a workflow is never rewritten. |
| DispatchRuns.RecordedWasHanded | packages/workflows/src/dispatch-runtime.ts:160-202 | Outcomes are only recorded under tickets that a committed claim handed out. |
| DispatchRuns.ClaimIsCommit | packages/registry/src/workflow-dispatch-store.ts:250-278 | A claim on the in-memory store changes the rows and hands out tickets exactly as one committed claim of the protocol. |
| DispatchRuns.RecordsAreRecords | packages/registry/src/workflow-dispatch-store.ts:293-419 | A recording call on the in-memory store is accepted, and changes the row, exactly as the protocol's record step. |
| DispatchRuntime.WorkflowDispatchRuntime.DispatchOne | packages/workflows/src/dispatch-runtime.ts:149-203 | One turn of the loop: trouble with recording a start is classified and recorded as retryable, trouble with any other record ends the pass. |
| DispatchRuntime.WorkflowDispatchRuntime.DispatchPending | packages/workflows/src/dispatch-runtime.ts:132-207 | The loop over the claimed dispatches with its counters, ended by the first error it does not catch. |
| DispatchRuntime.TurnIsRecords | packages/workflows/src/dispatch-runtime.ts:148-203 | On any store one turn is one record, for the template or the client's answer, told as its target if it goes through; only a refused record of a start is followed by a second one, a retryable failure under the name of that error. |
| DispatchRuntime.UndisturbedPass | packages/workflows/src/dispatch-runtime.ts:132-207 | With nobody else at the store a pass always returns, every claimed dispatch settles as its template and the client's answer say, the counts tell those outcomes, and other dispatches stay. |
| UploadSession.InMemoryUploadSessionStore.IssueUploadSession | apps/api/src/upload-session-service.ts:305-381 | Issuing replays, refuses, or writes asset, version, session and record together, with the next version number. |
| UploadSession.InMemoryUploadSessionStore.BeginCompletion | apps/api/src/upload-session-service.ts:393-537 | A completion up to its wait: every branch, in order, with the states it sets. |
| UploadSession.InMemoryUploadSessionStore.FinishCompletion | apps/api/src/upload-session-service.ts:539-591 | A completion from the end of its wait: evidence, dispatch, result and record, or a retryable version. |
| UploadHistory.StepKeepsInv | apps/api/src/upload-session-service.ts:305-592 | Every issuing, beginning and finishing of a completion keeps the invariant of the store. |
| UploadHistory.VersionsAreNumbered | apps/api/src/upload-session-service.ts:324-373 | In every reachable state the k-th version of an asset has number k. |
| UploadHistory.OneInFlight | apps/api/src/upload-session-service.ts:470-550 | Over every interleaving at most one canonicalisation per version is in flight, and a version is canonicalising exactly while its call waits. |
| UploadHistory.SettledForGood | apps/api/src/upload-session-service.ts:470-591 | `canonical` and `failed_validation` versions never change again, completion results never change, and the announced facts of versions and sessions never change at all. |
| UploadDecisions.StateTellsHistory | apps/api/src/upload-session-service.ts:465-591 | In every reachable state a version is `failed_validation` exactly if a call for it was rejected, `canonical` exactly if one was completed, `canonicalizing` exactly while one waits, and else `failed_retryable` exactly if a canonicalisation failed. |
| UploadDecisions.BeginDecides | apps/api/src/upload-session-service.ts:393-537 | In every reachable state the replies so far, the waiting calls and the issued session decide what a call for that session is answered: its key first, then the time, then what became of the session, then the staged object. |
| UploadDecisions.WaitsExactly | apps/api/src/upload-session-service.ts:393-537 | So a call waits exactly if its key was not answered, it is in time, the session was neither completed nor rejected and has no other call waiting, and the staged object is the announced one. |
| UploadDecisions.RetryWaits | apps/api/src/upload-session-service.ts:458-591 | After a failed canonicalisation the next call for the session, in time, under an unanswered key and with the announced object, waits again. |
| UploadDecisions.FinishDecides | apps/api/src/upload-session-service.ts:539-591 | A waiting call is answered with the issued session, the snapshot and a dispatch of the asked or default template, or that its canonicalisation failed. |
| UploadDecisions.IssueDecides | apps/api/src/upload-session-service.ts:305-381 | The first reply under a create key decides the later ones; without one, a missing asset is refused and any other request gets a new session that says back what was asked, with the next version number. |
| UploadHistory.EvidenceIsFixed | apps/api/src/upload-session-service.ts:563-566 | Evidence and dispatch of a version, once set, stay as they are. |
| UploadHistory.ResultIsTheEvidence | apps/api/src/upload-session-service.ts:563-592 | A session has a stored result exactly when its version is canonical with evidence and dispatch, and the result rebuilt from that evidence is identical. |
| UploadHistory.BeginCases | apps/api/src/upload-session-service.ts:465-533 | So in a reachable state the replay from evidence alone is never taken, and a version only leaves a retryable state. |
| UploadHistory.RepliesAgree | apps/api/src/upload-session-service.ts:416-591 | All replies that name one session agree, and at most one of them is not a duplicate. |
| UploadHistory.CompletedOnce | apps/api/src/upload-session-service.ts:563-587 | Each session with a result was answered with exactly that result, not as a duplicate, by a call for that session. |
| UploadHistory.CanonicalWasChecked | apps/api/src/upload-session-service.ts:482-519 | A version is only canonical if its one completing call staged the announced object key, byte length and, twice over, checksum. |
| UploadHistory.IssuesAgree | apps/api/src/upload-session-service.ts:306-322 | Replies under one create key carry one session and one request hash, and at most one is not a duplicate. |
| UploadHistory.IssuedIsWritten | apps/api/src/upload-session-service.ts:324-380 | The session a create key answers with is the one whose session and version rows say the same. |
| CompletionKeys.RecordsAreAlwaysLast | apps/api/src/upload-session-service.ts:563-587 | Over every run a completion key has a record exactly when a call under it was answered with a result, and the record is the hash and result of the latest such answer. |
| CompletionKeys.NamesRequestedExactly | apps/api/src/upload-session-service.ts:409-425 | In every reachable state a completed answer given at once names the requested session exactly if no call under its key was answered before, or the latest answer named that session too. |
| CompletionKeys.KeyDecides | apps/api/src/upload-session-service.ts:409-425 | In every reachable state a call for a known session under a key answered before is answered at once: with the latest answer if its hash is that one's, with a conflict if not. |
| CompletionKeys.WaitingNamesItsOwn | apps/api/src/upload-session-service.ts:539-591 | A completion that waited for its canonicalisation names its own session and is no duplicate. |
| CompletionKeys.RepliesNameAskedSessions | apps/api/src/upload-session-service.ts:409-425 | Over every run a completed reply names a session for which its key was used by some call. |
| CompletionKeys.SequentialReplay | apps/api/src/upload-session-service.ts:409-425 | A concrete run: one key used for two sessions with one hash, one call after the other; the second is answered with the first session's result. |
| CompletionKeys.ConcurrentOverwrite | apps/api/src/upload-session-service.ts:409-587 | A concrete run: two calls under one key for two sessions with different hashes wait at the same time; both are completed as no duplicates, and the record of the key is overwritten by the later one. |
| IdempotentWrites.StepKeepsInv | packages/registry/src/prisma-upload-session-store.ts:467-610 | Every step of any number of callers (lookup, planning, unique write, conflict lookup, load, loss of connection) keeps the invariant. |
| IdempotentWrites.OneSetPerKey | packages/registry/src/prisma-upload-session-store.ts:490-582 | At most one set of rows is committed per key, every asset, version and session belongs to one, the audit rows are exactly the authorisations of the commits in order, and version numbers run from one without gaps or repeats. |
| WriteRules.PlansExactly | packages/registry/src/prisma-upload-session-store.ts:490-546 | A create goes on exactly if its namespace is there and an existing asset is its owner's, in its namespace and tenant; what it drafts says the next number. An authorisation goes on exactly if the version may be read; what it drafts says its scope, its link or address, and fifteen minutes. |
| WriteRules.AnswersWereAllowed | packages/registry/src/prisma-public-version-read-store.ts:381-605 | Over every run an answer that is no duplicate was allowed when it was planned, and says what the request and the registry said then. |
| WriteRules.RefusedExactly | packages/registry/src/prisma-upload-session-store.ts:490-546 | Over every run a caller ends refused as not found or not ready exactly if it was not allowed when it planned. |
| WriteRules.GrantsStay | packages/registry/src/prisma-public-version-read-store.ts:539-594 | Over every run a grant, once written, is never written again. |
| WriteRules.ReplaysExactly | packages/registry/src/prisma-public-version-read-store.ts:838-891 | A replay gives back what was stored, as a duplicate, unless an empty text makes it unreadable. |
| IdempotentWrites.ReturnsAgree | packages/registry/src/prisma-upload-session-store.ts:467-610 | All callers that return under one key asked with one hash and get one answer, and at most one is not a duplicate. |
| IdempotentWrites.OneWriter | packages/registry/src/prisma-upload-session-store.ts:548-605 | Once a key has its record, exactly one commit is for that key and holds the record's response; the caller that made it asked with the record's hash, and returned as no duplicate unless its answer was lost. |
| IdempotentWrites.OtherRequestConflicts | packages/registry/src/prisma-upload-session-store.ts:479-488 | A caller with another hash than the record's never returns, cannot write, and is refused by each lookup. |
| IdempotentWrites.ReplayIsTheAnswer | packages/registry/src/prisma-upload-session-store.ts:584-605 | What is replayed from the rows is what was answered; for authorisations as long as the stored texts are not empty. |
| Rethrows.RethrownExactly | packages/registry/src/prisma-upload-session-store.ts:515-608 | Over every interleaving a call ends with the database error exactly if its write found its drafted number or grant id taken and its key still had no record when it looked again. |
| Rethrows.RethrownByRival | packages/registry/src/prisma-upload-session-store.ts:515-608 | A create that ends so named an existing asset, and between its plan and its write a create of another key on that asset committed the number it had drafted. |
| Rethrows.NoRivalNoRethrow | packages/registry/src/prisma-upload-session-store.ts:515-608 | A create of a new asset, or one without another create on its asset under another key, never ends with the database error. |
| Rethrows.AuthorizationNotRethrown | packages/registry/src/prisma-public-version-read-store.ts:539-594 | An authorisation never ends with the database error if it is for a delivery, or its grant id is not given out yet when it writes. |
| Rethrows.RivalIsRethrown | packages/registry/src/prisma-upload-session-store.ts:515-608 | A concrete run in which two creates draft one number and the slower one is handed the database error. |
| Rethrows.OwnKeyReplays | packages/registry/src/prisma-upload-session-store.ts:584-608 | The same race, but another caller gets through under the slower one's key before it looks again: it replays that caller's session. |
| IdempotentWrites.WriterIsSaidBack | packages/registry/src/prisma-public-version-read-store.ts:429-490 | The caller that wrote is answered with what it asked for, expiring fifteen minutes later for an authorisation. |
| DownloadLinks.InMemoryPublicVersionReadStore.AuthorizeDelivery | apps/api/src/public/delivery-service.ts:304-369 | A delivery authorisation is checked against the version and its derivatives, and a one-time one mints a link once per request key. |
| DownloadLinks.InMemoryPublicVersionReadStore.BeginAuthorizeSource | apps/api/src/public/delivery-service.ts:371-382 | Before the wait a source request is only refused for a version that is not catalogued, quarantined or purged. |
| DownloadLinks.InMemoryPublicVersionReadStore.FinishAuthorizeSource | apps/api/src/public/delivery-service.ts:383-439 | The part after materialisation: the base authorisation, and for a one-time request the link minted first for its key. |
| DownloadLinks.InMemoryPublicVersionReadStore.ConsumeDownloadLink | apps/api/src/public/delivery-service.ts:441-455 | A link is taken out when redeemed before its expiry, and refused otherwise. |
| DeliveryRules.DeliversExactly | apps/api/src/public/delivery-service.ts:304-369 | A delivery is authorised exactly for a catalogued, published version that lists the scope and variant, with the CDN URL of that scope and variant for fifteen minutes, as a link minted once if it is one-time; the error for each other case is named. |
| DeliveryRules.SourcesExactly | apps/api/src/public/delivery-service.ts:371-382 | A source request goes on to its materialisation exactly for a catalogued version that is neither quarantined nor purged. |
| DeliveryRules.FinishesExactly | apps/api/src/public/delivery-service.ts:383-439 | It is then granted, with the address and expiry of the export, of the version's source or of the proxy, unless the export failed. |
| DeliveryRules.EveryLinkIsCaused | apps/api/src/public/delivery-service.ts:304-439 | Over every run each minted link was asked for by a request for that key: a delivery link for a deliverable version with its own CDN URL and fifteen minutes, a source link for a readable version with the address of that source. |
| DownloadLinks.StepKeepsInv | apps/api/src/public/delivery-service.ts:304-455 | Every authorisation, suspended or not, and every redemption keeps the invariant. |
| DownloadLinks.StepsAreOperations | apps/api/src/public/delivery-service.ts:304-455 | The steps of the runs below store and answer exactly what the operations of the store do, and note each one-time answer. |
| DownloadLinks.OneTokenPerRequest | apps/api/src/public/delivery-service.ts:336-438 | Each request key mints at most one token, and every one-time answer for it, before or after redemption, is the link minted for it. |
| DownloadLinks.RedeemedOnceInTime | apps/api/src/public/delivery-service.ts:441-455 | Each token redeems at most once, never at or after its expiry, to the URL authorised when it was minted. |
| DownloadLinks.LinkWorksOnce | apps/api/src/public/delivery-service.ts:441-455 | A minted link redeems exactly while it is unredeemed and unexpired. |

## Left out
- Compression streams, SHA-256, the DOS clock fields and the filename's lower-casing: library calls, kept as parameters with the laws used stated as hypotheses.
- Text decoding: paths are byte sequences, so UTF-8 replacement characters and the difference between bytes and UTF-16 units in long tar names are not modelled; the path theorems speak of ASCII paths.
- Tar.ReadWrittenHeader: modes and times beyond their fields come back truncated, and times before 1970 are not modelled; the archive round trip claims nothing about mode and time.
- Tar.StoredPathSurvives: paths beyond 256 bytes are refused by the writer, so nothing is claimed for them.
- Skipping path validation when creating an archive, and the split manifest: test-only, and record copying.
- ZipRoundTrip.UnpackZipRejectsChange: changes of more than four consecutive bytes, and changes to compressed entries, are not claimed to be caught.
- Generating the gear table: the chunker is proved for every table.
- Crashes in the middle of an ingest, and files changed by others between the existence check and the write.
- StableJson.PrintIsCanonical: numbers are carried by their printed text, and big integers, objects with `toJSON` and lone surrogates are not modelled.
- Prisma record transitions and link consumption: they read and then write without a compare-and-set, so fencing and single use do not follow; fencing is proved for the in-memory store and for the claim.
- DispatchProtocol.StepKeepsInv: assumes one workflow key per dispatch, one fixed template registry for all workers and the default failure classifier; which candidates a snapshot takes first is left open here and proved in ClaimDrain.
- Progress: old retryable failures may be claimed again and again, and a dispatch left in `starting` by a crash has no lease, so no claim that dispatches finish.
- RunHistory.RunsAreKept: claims the progress of a run only while nothing is recorded as a duplicate of it, because that overwrites it.
- Run fields that this store never sets (cancellation, completion, operator action, wait reason), and listing runs.
- Ids joined with `:` into one string could collide when they contain `:`; keys are tuples here.
- IdempotentWrites.OneSetPerKey: the several inserts of one transaction are one atomic step, and rows are not deleted or changed by other parts of the registry.
- Completion of upload sessions in the Prisma store, readiness, metrics, manifests, capability tables, publication workflows and the operator service.
- HTTP routes, schemas, authentication, user interfaces, object stores, Temporal and the other foreign systems.

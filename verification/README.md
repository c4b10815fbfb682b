# Verified model of katagrapho's recording chain

katagrapho records sessions into size-rotated parts, signs a manifest for each part, links every manifest
into one chain per host, and keeps a signed log of the same events. `katagrapho-verify` later decides
whether what is on disk is one unbroken history. This project models both sides and proves what the
verifier's verdict means.

The modules follow the program:

- `ChainCheck`, `Deletion`: the manifest chain verifier, and what it says about deleted manifests.
- `Text`, `ChainLog`: the log's text format, its hash chain, and the verifier that reads it back.
- `JsonText`, `Canonical`, `CanonicalForm`, `Manifests`, `Signing`: the canonical bytes of a manifest, a JSON
  reader that says what stands in them, signing and verifying.
- `StreamReader`, `Rotation`, `Session`, `Outcome`: line framing, the kinds of records, the per-record loop, the
  per-part loop and its limits, and when a session succeeds.
- `Calendar`: civil dates and the timestamp text.
- `ChainDir`, `History`, `Quiescence`: the chain directory, the transaction that advances it, and exactly
  when the checks pass after any sequence of transactions, each of which may have stopped at any step.
- `Protocol`, `Progress`: any number of recorders interleaving step by step under the lock, while retention deletes
  recordings; whenever the lock is free, one can complete. `Unlocked`: the verifier that reads meanwhile.
- `Corpus`, `Retention`, `Naming`, `Verdict`, `EndToEnd`: the recordings tree, the directory walk, retention, the whole
  `--check-chain` decision, and the theorem that goes from interleaved recorders to a green verdict.
- `Tamper`, `Legacy`, `Rollback`: what an edited log, head and set of manifests can still pass as.
- `Sequences`, `Wrappers`: facts about duplicate-free sequences, options and results.

`Protocol` and `History` meet in one function: `ChainDir.Apply` is the disk a transaction leaves for each
point it can stop at. The method `ChainDir.Host.WriteManifestAndAdvance` is proved to produce it, every
reachable state of `Protocol` is proved to be a composition of it, and `Quiescence` decides what the verifier
says about such compositions.

## Assumptions

Nothing is assumed about all texts at once. Each theorem names the texts it needs.

- `Signing.Sound`: digests are 64 lower-case hex digits, signatures are one word, and a signature the key
  made is accepted.
- `Signing.NoCollision`, `Signing.NoneGenesis`, `Quiescence.HashesTell`, `Tamper.LogsTell`, `Rollback.AllTell`:
  the digests of the texts in play (canonical manifests and log preimages of the run and of the material under
  examination) do not collide and are not 64 zeros.
- `Tamper.Unforged`, `Rollback.ManifestsUnforged`: every valid signature that occurs in the material under
  examination is over a digest the key signed as a line of the host's log or for a manifest, committed or not. A
  host's own log satisfies this: `Tamper.OwnLogIsTrusted`.
- `History.Distinct`: no two transactions signed for recordings of one name. `Protocol.ExclusiveCreation` proves
  this as long as nothing is deleted, and `Protocol.EveryStateIsSerial` as long as no deleted name is used again.

## Where the code does less than its documentation says

- The log's last line and `head.hash` are said to be unable to disagree legitimately
  (bin/katagrapho-verify.rs:163-165). They do after an append that failed behind a successful head write:
  `Quiescence.FailedAppendsMend` gives the exact condition, and that the next complete transaction mends it.
- A transaction that stops between sidecar and head leaves an orphan. With a chain beside it the check fails from
  then on (`Quiescence.OrphanNeverMends`), unless its name is used again (`Quiescence.ReusedNameMends`). The exact
  condition is in `Quiescence.QuiescentVerdict`, and for names used again in `Quiescence.VerdictWithReuse`.
- The log preimage is documented as six fields joined with NUL (src/chain.rs:18); each field is in
  fact terminated by NUL, and the model does the same.
- The log is said to be tamper-evident on its own (src/chain.rs:4-11). That holds while one signed line is left
  (`Tamper.LogTamperEvident`, `Rollback.PassesExactlyEarlier`), and not for a log of unsigned lines or none
  (`Rollback.StrippedLogPasses`). By itself it never shows that its newest lines are gone, nor that unsigned lines
  were put in front of it: `Legacy.UnsignedInFront`, and `Legacy.LogPassesExactly` for exactly what it can read as.
  With the head a cut shows (`Rollback.NoLineCutOff`).
- An unreadable head only prints a warning, and a missing head is GENESIS: `Rollback.LostHeadHidesTruncation`. An
  orphaned sidecar then passes as the newest manifest: `Rollback.UnanchoredAreOriginals`.
- A recording that is still being written has no sidecar, so on a host with live recorders the whole check fails:
  `EndToEnd.GreenAnytime`.
- Appending preserves verification exactly when nothing but blanks follows the last newline:
  `ChainLog.AppendVerifies`.
- Retention keeps a tree verifiable if and only if no sidecar falls back on a file with other content, left under
  the name its manifest records: `Retention.RetentionExactly`, with the report in `Retention.RetentionReports`.
- An aged host is said to verify still, since retention keeps sidecars (README.md:125). But a session id used again
  after retention deleted its recording overwrites the kept sidecar. Where every transaction completed, the check
  passes if and only if this never happened: `Quiescence.CompleteRunExactly`, `Protocol.CompleteRecordersPass`,
  `EndToEnd.RecordersVerify`.
- The verifier takes no lock, so a commit that falls between two of its reads can make a healthy host fail:
  `Unlocked.ThreeReads` gives the exact condition, `Unlocked.RacedReadsFail` what it means for complete runs.
- The zero-padded timestamps sort as time does up to the year 9999: `Calendar.StampsOrderExactly` says when they
  do for all years.
- Recordings whose suffix is that of a sidecar stop the walk (`Retention.WalkFails`), and `validate` lets such a
  suffix through, so `EndToEnd` asks for names that the walk counts as recordings.

## Model

| member | source | states |
|---|---|---|
| `ChainCheck.CheckSingleChain` | src/verify.rs:174-303 | Accepts a set of manifests if and only if it is empty and nothing but GENESIS is expected as the tip, or all of it can be ordered as one path with distinct hashes from a single genesis to the expected tip; each error states what is wrong with the set, and three of the errors are never returned |
| `ChainCheck.CheckNonEmpty` | src/verify.rs:188-303 | The same for a non-empty set: success gives the path, an error its explanation |
| `ChainCheck.IndexHashes` | src/verify.rs:188-199 | The uniqueness pass: an index with one slot per manifest, or two entries that share the reported hash |
| `ChainCheck.IndexChildren` | src/verify.rs:201-236 | The successor pass: one successor per predecessor and exactly one genesis, or the exact fault |
| `ChainCheck.FirstTips` | src/verify.rs:249-267 | Tip selection finds a tip, and never a second one, so both of its errors are unreachable |
| `ChainCheck.WalkBack` | src/verify.rs:270-301 | The bounded backward walk: success means the whole set is one path; the guard trips only on a cycle through an anchored tip, and falling short without an anchor means a detached cycle |
| `ChainCheck.OneHashUnfollowed` | src/verify.rs:248-267 | Pigeonhole: with one link fewer than there are hashes, exactly one hash is followed by nothing |
| `ChainCheck.LongWalkCycles` | src/verify.rs:276-280 | A backward walk longer than the set has gone round a cycle through its start |
| `ChainCheck.LeftoverCycle` | src/verify.rs:294-300 | What a complete walk from an unfollowed tip leaves over contains a cycle |
| `ChainCheck.ExplainedIsRejected` | src/verify.rs:178-301 | Every explanation the verifier can give excludes every single-path order of the set |
| `ChainCheck.AnchoredPathIsWhole` | src/verify.rs:242-301 | Two single paths to the same tip within one set are the same path, so no history can be grafted beside it |
| `ChainCheck.PathHasNoCycle` | src/verify.rs:275-280 | A single path holds no cycle |
| `ChainCheck.TwoLinksSameElement` | src/verify.rs:189-228 | On a single path no two manifests share a hash or a predecessor |
| `Deletion.DeletionUnanchored` | src/verify.rs:248-268 | Of an honest chain, a subset passes without an anchor if and only if it is a prefix |
| `Deletion.DeletionAnchored` | src/verify.rs:242-247 | Anchored to the k-th manifest, a subset passes if and only if it is exactly the first k |
| `Deletion.PathRetraces` | src/verify.rs:270-301 | Any single path made of a chain's manifests retraces the chain from its start |
| `Deletion.AnchoredListing` | src/verify.rs:242-301 | Any set of distinct manifests that hang on an honest chain passes against the chain's c-th hash if and only if its hashes are those of the chain up to there |
| `Deletion.UnanchoredListing` | src/verify.rs:248-301 | Without an anchor such a set passes if and only if it is a first part of the chain, or that and one manifest that comes next |
| `ChainLog.AppendVerifies` | src/chain.rs:220-256 | Appending a safe record to an accepted log always succeeds; the result is accepted with exactly that entry added if and only if only blanks follow the last newline |
| `ChainLog.TipAgrees` | src/chain.rs:189-211 | The tip an append reads is the predecessor the verifier expects next, through legacy lines and blank lines |
| `ChainLog.TipMeans` | src/chain.rs:189-211 | The last line that is not blank decides: five words give GENESIS, eight their digest, any other number an error |
| `ChainLog.UnsignedStartsAtGenesis` | src/chain.rs:197-205 | Until a line is signed the expected predecessor is GENESIS, and it is always one word |
| `ChainLog.OwnLineReads` | src/chain.rs:234-236 | The printed line is read back by the verifier as the same record |
| `ChainLog.GluedLineFails` | src/chain.rs:316-392 | A signed line joined to an unterminated line is rejected |
| `ChainLog.AppendTerminates` | src/chain.rs:235-247 | A log that was appended to ends in a newline, so it can be appended to again |
| `ChainLog.TextGrows` | src/chain.rs:220-256 | A newline-terminated accepted log stays one under every append of a safe record |
| `ChainLog.ErrorsStick` | src/chain.rs:316-392 | The first line at fault decides the verdict |
| `ChainLog.PreimageUnambiguous` | src/chain.rs:149-170 | The digest preimage of NUL-free fields is that of no other record, not even of one whose fields hold NUL |
| `ChainLog.PreimageIs` | src/chain.rs:149-170 | What a log line hashes: time, user, session, part, manifest hash and predecessor, each closed by a NUL |
| `ChainLog.LineIs` | src/chain.rs:234-236 | What a log line holds: the same six, their digest and its signature, with single spaces between them |
| `ChainLog.LineMeans` | src/chain.rs:316-392 | By its words: which lines are accepted and what they add, and for each error its own condition |
| `Text.WordsOfSpaced` | src/chain.rs:235-237 | Splitting at white space undoes joining words with spaces |
| `Text.LinesOfAppend` | src/chain.rs:197 | Appending a line joins it to the unterminated tail of a text and leaves the lines before it alone |
| `Text.ParseOfDecimal` | src/chain.rs:322-326 | Parsing a printed 32-bit number gives it back |
| `Text.ParseMeans` | src/chain.rs:322-326 | Any digits below 2^32 are a part number, with leading zeros or a plus sign too, and nothing else is |
| `Text.GluedWordCount` | src/chain.rs:321-328 | Joining two texts loses at most one word |
| `Canonical.CanonicalInjective` | src/manifest.rs:82-146 | Two manifests have the same canonical text if and only if all twenty signed fields agree, floats as printed |
| `Canonical.CanonicalDetermines` | src/manifest.rs:82-146 | With finite floats: if and only if they differ at most in the three signature fields |
| `Canonical.CanonicalBytes` | src/manifest.rs:82-146 | The loops that push onto the output build exactly the canonical text, whose contents `CanonicalForm.CanonicalReads` states |
| `Canonical.EncodeList` | src/manifest.rs:92-108 | The chunk loop prints the list with one separator between elements and none elsewhere |
| `Canonical.EncodeObject` | src/manifest.rs:110-145 | The field loop prints the object with quoted keys in the given order |
| `Canonical.CanonicalEnds` | src/manifest.rs:144 | The canonical text ends in a closing brace, which no log preimage does |
| `CanonicalForm.CanonicalReads` | src/manifest.rs:82-146 | The canonical text is one JSON object. A reader by the grammar of RFC 8259 finds in it exactly the twenty names of the format, in strictly ascending order, and under each name the manifest's field of that name, numbers as integers and floats without a number as null |
| `CanonicalForm.ChunkSays` | src/manifest.rs:92-108 | Each chunk object has its five names in ascending order, each with the chunk's own value |
| `CanonicalForm.NamesDiffer` | src/manifest.rs:110-131 | Names in strictly ascending order stand once each |
| `JsonText.ReadsBack` | src/manifest.rs:83-108 | Every printed value, whatever delimiter follows, is read back as it was, strings unescaped by section 7 of RFC 8259 |
| `JsonText.RenderInjective` | src/manifest.rs:83-108 | JSON text determines the value it was printed from, through string escaping (section 7 of RFC 8259) and nesting |
| `JsonText.RenderUnique` | src/manifest.rs:83-108 | A printed value followed by a delimiter can be split off in one way only |
| `JsonText.EscapeUnique` | src/manifest.rs:83-86 | A quoted string ends at one place and has one content |
| `Signing.Draft.Sign` | src/manifest.rs:157-164 | Signing fills in hash, key and signature and nothing else, and what it leaves verifies |
| `Signing.SignedVerifies` | src/manifest.rs:157-192 | Signing, then verifying, succeeds, and signing does not change the hash |
| `Signing.VerifyMeans` | src/manifest.rs:166-192 | Verification succeeds exactly when the stored hash decodes to the content's digest and the signature covers it; the letter case of the stored hash does not matter |
| `Signing.VerifyFails` | src/manifest.rs:166-192 | Each failure has its own condition, in the order of the tests: no hex text, another length, another content, no valid signature |
| `StreamReader.Reader.NextEvent` | src/stream.rs:90-168 | One call returns the next record with its raw bytes, or the reason there is none, and consumes exactly those bytes |
| `StreamReader.RecordIsWholeLine` | src/stream.rs:95-99 | A record is a whole line of at most the cap, newline included, or the unterminated end of the input |
| `StreamReader.ChunkReadsBack` | src/stream.rs:145-151 | A chunk record is read back as the chunk it reports, each number in its place |
| `StreamReader.EndReadsBack` | src/stream.rs:152-156 | An end record is read back with its reason and its signed 32-bit exit code |
| `StreamReader.HeaderReadsBack` | src/stream.rs:116-133 | A header record gives all nine fields, each from the member of that name, and keeps the record itself; further members change nothing else |
| `StreamReader.TimedReadsBack` | src/stream.rs:134-139 | Output and input records give their time |
| `StreamReader.ResizeReadsBack` | src/stream.rs:140-144 | A resize record gives its time, columns and rows, of which 16 bits are kept |
| `StreamReader.UnknownKinds` | src/stream.rs:157-165 | A record of any other kind is an event and never an error |
| `StreamReader.OnlyKindMatters` | src/stream.rs:112-114 | A record fails if and only if its kind is missing or is no text |
| `StreamReader.MissingMembers` | src/stream.rs:116-156 | Members that are missing read as empty, zero, 80 columns, 24 rows, `eof` |
| `StreamReader.LineErrors` | src/stream.rs:95-114 | A line gives no event exactly if it is not UTF-8, not JSON, or has no kind, each with its own error |
| `StreamReader.LinesAreRead` | src/stream.rs:95-112 | A whole line of up to 16777216 bytes, newline included, is read if it gives an event; a longer one never is |
| `StreamReader.PrefixOfInput` | src/stream.rs:90-109 | The raw bytes of the first records are a prefix of the input, and reading goes on right behind it |
| `StreamReader.RecordsWithinCap` | src/stream.rs:102-107 | Every record returned is between one byte and 16 MiB long |
| `Rotation.RecordLoop` | src/main.rs:1049-1108 | The loop over mutable counters, chunks and end reason computes the state and the unread rest that the specification gives, and terminates |
| `Session.RecordSession` | src/main.rs:671-864 | Limits are checked before any part: 1048576 to 536870912 bytes for a part, and no more than for the session; the parts returned are those of the specified run, which `Outcome` characterizes |
| `Session.PerPartLoop` | src/main.rs:739-864 | The per-part loop, with its part number, session bytes, link and first header, produces the turns of the specified run |
| `Session.ProcessPart` | src/main.rs:922-1001 | One part: a synthetic header for parts after the first, the record loop, and an error if no header was seen |
| `Session.SessionConserves` | src/main.rs:739-864 | In every run that does not fail, each part is its synthetic header followed by its payload; the payloads, end to end, are the consumed prefix of the input; their chunk lists are the chunk records of that prefix; the session count is the sum of the part counts |
| `Session.SessionStops` | src/main.rs:1082-1107 | Reading stops at end of input, an `end` record, a shutdown or the session limit, with the reason and exit code that the manifest then records; every part but the last was rotated full, below the session limit, with no shutdown pending |
| `Session.SessionLinks` | src/main.rs:765-786 | Part n's header is part 0's with only the part number and the link replaced, and the link is part n-1's manifest hash or null |
| `Session.LinkedHeaderReads` | src/main.rs:765-786 | Read back, a synthetic header gives the original's fields with the new part number, and every other member of the record is the original's |
| `Session.SessionBounded` | src/main.rs:1098-1107 | Part bytes, session bytes and the number of parts stay within limits plus one header and one record |
| `Session.LoopReads` | src/main.rs:1049-1108 | A part's loop consumes a number of records and leaves exactly the rest |
| `Session.LoopStores` | src/main.rs:1049-1074 | What a part stores is its header followed by the raw bytes of the records it consumed, with their chunk records |
| `Session.LoopJustified` | src/main.rs:1049-1108 | The recorded end is the true one in every case: reason and exit code of the last `end` record read, or the initial ones where none was read; the flag goes before the session limit, and that before the part limit |
| `Session.LoopUndisturbed` | src/main.rs:1049-1108 | No record of a part but the last is an `end` record or leaves the shutdown flag set, so the loop stops at the first reason there is |
| `Session.LoopBounded` | src/main.rs:1050-1052 | One record is the most by which a limit is overshot |
| `Outcome.SessionSucceeds` | src/main.rs:739-1108 | A session succeeds when its names are free, one header record stands among the records up to where reading stops, in the first part, no bad record comes before that, and the headers made from it can be read back |
| `Outcome.SessionFails` | src/main.rs:739-1108 | Each error has one ground only: a name in use, or part numbers run out; a bad record or a second header that was reached; a first part that ended without a header; an unreadable synthetic header |
| `Outcome.SessionNeeds` | src/main.rs:739-1001 | A session that succeeded had exactly one header record among all it read, in the first part, and keeps that one; all its names were free, and each later part's header was read back |
| `Calendar.DaysAreDates` | src/main.rs:1227-1239 | For every integer day the result is a valid proleptic Gregorian date |
| `Calendar.EpochDay` | src/main.rs:1226-1227 | Day 0 is 1970-01-01 |
| `Calendar.DaysFollowCalendar` | src/main.rs:1227-1239 | The day after maps to the calendar successor, negative days included |
| `Calendar.DaysRoundTrip` | src/main.rs:1227-1239 | Days-from-civil inverts it |
| `Calendar.DatesRoundTrip` | src/main.rs:1227-1239 | It inverts days-from-civil on every valid date, so it is onto |
| `Calendar.DaysOrdered` | src/main.rs:1227-1239 | Later days are later dates, and conversely |
| `Calendar.StampRoundTrip` | src/main.rs:1212-1224 | For years 0 to 9999 the fixed-width text gives back the seconds it was made from |
| `Calendar.TimestampRoundTrip` | src/main.rs:1212-1224 | The same for the recorder's own clock readings before the year 10000 |
| `Calendar.StampLayout` | src/main.rs:1212-1224 | Between digits, the text has its dashes, `T`, colons and `Z` at fixed places, and up to the year 9999 it is twenty characters long |
| `Calendar.StampsOrdered` | src/main.rs:1212-1224 | For years 0 to 9999 the order of the text is the order of time |
| `Calendar.StampsOrderExactly` | src/main.rs:1212-1224 | For all years from 0: stamps whose years have equally many digits order as time does, and an earlier, narrower one sorts first if and only if its year is at most the later year without its surplus last digits |
| `Calendar.FiveDigitYearSortsFirst` | src/main.rs:1223 | Every stamp of the year 10000 sorts before every stamp of the year 9999 |
| `ChainDir.Host.WriteManifestAndAdvance` | src/main.rs:1113-1187 | Whatever step fails, the directory is what the transaction leaves at the point it reached, the lock is free again, and success means sidecar, head and log line were all written for the manifest that follows the head |
| `ChainDir.Host.Advance` | src/main.rs:1168-1184 | The three writes happen in order, each only after the one before it succeeded |
| `ChainDir.Host.ReadHead` | src/chain.rs:90-103 | GENESIS while no file exists, the trimmed text if it is 64 hex digits, otherwise an error |
| `ChainDir.Host.WriteHead` | src/chain.rs:116-145 | A wrong length or a failure before the rename leaves the head alone; after the rename it holds the new hash even if an error is returned |
| `ChainDir.Host.ReadLogTip` | src/chain.rs:189-211 | The backward search over lines returns the tip of the specification |
| `ChainDir.Host.AppendLog` | src/chain.rs:220-256 | A rejected field or an unreadable tail leaves the log as it was; otherwise exactly the one line is added |
| `ChainDir.Host.VerifyLog` | src/chain.rs:293-394 | A missing log is an empty one, an unreadable one an error, any other is judged line by line |
| `ChainDir.Host.VerifyLines` | src/chain.rs:309-393 | The loop over entries, counts and expected predecessor gives the verdict of the specification, errors and line numbers included |
| `ChainDir.Host.PlaceSidecar` | src/manifest.rs:195-213 | The sidecar is replaced as a whole or not at all |
| `ChainDir.WrittenHeadReads` | src/chain.rs:90-145 | A head that was written is read back |
| `ChainDir.HeadMeans` | src/chain.rs:90-103 | Exactly 64 hex digits are a head, with white space around them or not; an empty file and any other content are errors |
| `ChainDir.AppendRefused` | src/chain.rs:220-256 | Nothing is appended, in this order, for a time, user, session or manifest hash that is empty or holds white space or a NUL, for an unreadable log, and for a malformed last line; otherwise exactly one line is |
| `ChainDir.ManifestSays` | src/main.rs:1139-1169 | Each of the twenty signed fields comes from where it belongs: job, header, clock, build, recording or current head; hash, key and signature belong to them |
| `ChainDir.PlacedSays` | src/main.rs:1131-1171 | That manifest is the sidecar placed beside the recording, under its name |
| `ChainDir.LineSays` | src/main.rs:1173-1184 | The line a transaction logs carries its own time, user, session, part and manifest hash, in this order, with their digest |
| `History.ExtendApplies` | src/main.rs:1131-1186 | The bookkeeping of a history follows the disk that a transaction leaves |
| `History.NextManifest` | src/main.rs:1131-1169 | After any transactions the head can be read, and the next manifest names the last committed one, verifies, and vouches for its recording |
| `History.ValidJobLogs` | src/main.rs:603-630 | A validated recorder's log record is never rejected |
| `History.TimestampIsSafe` | src/main.rs:1212-1224 | No timestamp can be read back as more than one field |
| `History.ExtendKept` | src/main.rs:1113-1187 | Every transaction, whatever stage it reaches, keeps chain, head, log and sidecars consistent, also where it overwrites a sidecar |
| `History.ReplaySane` | src/main.rs:1113-1187 | So does every history of transactions: linked chain, head at its end, log that verifies and names committed manifests in order; on distinct recordings each sidecar stays in its own place |
| `History.SidecarInjective` | src/main.rs:1206-1210 | Two recordings never share a sidecar |
| `Quiescence.ChainIsHonest` | src/main.rs:1131-1169 | Committed manifests have distinct hashes that are not GENESIS, from their links alone, if digests of their canonical texts do not collide |
| `Quiescence.ListingsPermute` | src/verify.rs:312-343 | In whatever order sidecars are listed, the same manifests are listed |
| `Quiescence.ManifestVerdict` | src/verify.rs:174-303 | Against the head, the manifests on disk pass if and only if no transaction stopped between its sidecar and its head, or one did and nothing was ever committed |
| `Quiescence.LogStands` | src/chain.rs:293-394 | The log verifies whatever failed, and its newest line agrees with the head exactly when the last commit was logged |
| `Quiescence.QuiescentVerdict` | bin/katagrapho-verify.rs:125-178 | After any transactions, each having reached any stage, the chain check passes if and only if the last commit was logged (or none was) and no sidecar was orphaned (or one was, and nothing was committed) |
| `Quiescence.CompleteRunPasses` | bin/katagrapho-verify.rs:125-178 | A run in which no step failed passes, with one manifest for each transaction |
| `Quiescence.CompleteRunAgrees` | src/main.rs:1173-1184 | Its log has one line for each transaction, and the head is the manifest hash of the last |
| `Quiescence.LogAlwaysVerifies` | src/chain.rs:234-255 | Whatever failed, the log verifies by itself, with one entry for each append that was made |
| `Quiescence.FailedAppendsMend` | src/main.rs:1173-1184 | If only appends failed, the manifests still pass against the head, and the next complete transaction makes the whole check pass again |
| `Quiescence.OrphanNeverMends` | src/main.rs:1170-1173 | Where anything is committed at all, an orphaned sidecar makes the check fail for good, unless a later transaction places a sidecar of the same name over it |
| `Quiescence.ReusedNameMends` | src/main.rs:1206-1210 | A complete transaction on the name of an orphan makes the check pass again, if no other sidecar was lost |
| `Quiescence.VerdictWithReuse` | bin/katagrapho-verify.rs:125-178 | Any transactions, names used again included, read off the transactions: the check passes if and only if the last commit was logged (or none was), every sidecar name was placed last by a transaction that also advanced the head, and there are as many names as such transactions; or, with none of these, one name at most |
| `Quiescence.CompleteRunExactly` | src/main.rs:1206-1210 | Where every transaction completed, the check passes if and only if their recordings are pairwise distinct: a session id recorded again overwrites its sidecar, and the chain has a hole |
| `Protocol.RunKeeps` | src/main.rs:1131-1186 | Every interleaving of recorders, and of retention, keeps the lock exclusive, each recording owned by one recorder or one finished transaction as long as its name is not used again, and the directory as its holder left it |
| `Protocol.MutualExclusion` | src/chain.rs:57-88 | At most one recorder is inside the transaction |
| `Protocol.EveryStateIsSerial` | src/main.rs:1131-1186 | In every reachable state, also in the middle of a transaction, after crashes and after deletions, the directory is what whole transactions leave one after the other; their recordings are distinct unless a deleted name was used again |
| `Protocol.ExclusiveCreation` | src/main.rs:747-762 | As long as retention deletes nothing, exclusive creation keeps all recordings ever signed distinct |
| `Protocol.VerdictAnytime` | bin/katagrapho-verify.rs:125-178 | What the chain check says of a snapshot of one state, for every reachable state, read off the transactions so far, whether or not a name was used again |
| `Protocol.CompleteRecordersPass` | bin/katagrapho-verify.rs:125-178 | Recorders that all complete leave, in any interleaving with each other and with retention, a directory that passes whenever the lock is free, if and only if no recording's name was signed for twice |
| `Protocol.CompleteRecordersAgree` | src/chain.rs:220-256 | Their log has one line for each finished transaction, and its newest line agrees with the head |
| `Protocol.GracefulRunsComplete` | src/main.rs:739-828 | Where no recorder stops between creating a recording and completing its transaction, and none is still at work, the lock is free, every transaction is complete, and every recording left has the content a transaction signed for it |
| `Protocol.StepOwned` | src/main.rs:747-762 | Exclusive creation gives every transaction a recording of its own, whose content stays what the manifest says until it is deleted |
| `Protocol.StepSerial` | src/main.rs:1131-1186 | Each step keeps the directory equal to a prefix of the holder's transaction on top of the finished ones |
| `Progress.RecorderCanComplete` | src/main.rs:1131-1186 | In every reachable state with a free lock an idle recorder can take any valid job on a free name through all ten steps, and is then one more complete transaction |
| `Unlocked.ThreeReads` | bin/katagrapho-verify.rs:125-187 | The verifier takes no lock: with its reads of log, head and sidecars at any three points of a run, in that order, it passes if and only if the log read is empty or its newest line names the manifest that the head read names, and the sidecars listed have the hashes of the chain up to that head (or no head was written, and they line up with the chain) |
| `Unlocked.RacedReadsFail` | bin/katagrapho-verify.rs:125-187 | On a host where every transaction completes on recordings of its own, reads that find the lock free pass if and only if no commit fell between log and head (or the log was still empty) and none between head and sidecars (or no head was written yet) |
| `Unlocked.ChainsGrow` | src/main.rs:1113-1187 | At every point of a run what is committed is a first part of what is committed at any later point |
| `Corpus.EntryMeans` | src/verify.rs:130-150 | An entry passes if and only if its stored hash and signature belong to its content and the recording located for it, if any, has the signed digest |
| `Corpus.VerifyRecursive` | src/verify.rs:120-163 | Passes if and only if every sidecar loads, verifies and matches its recording, and the chain is accepted if asked for; the counts and the unsigned list are those of the specification, and an error names what failed |
| `Corpus.VerifyEntries` | src/verify.rs:130-150 | The loop over sidecars stops at the first fault, otherwise counts pruned recordings and collects signed ones |
| `Corpus.UnsignedAmong` | src/verify.rs:151-154 | The recordings not vouched for, in listing order |
| `Corpus.Finder.WalkCollect` | src/verify.rs:312-343 | The recursive walk appends what it finds in order, and stops at the first sidecar that does not load |
| `Corpus.BaseName` | src/verify.rs:73 | The fallback name is a plain file name, so a manifest cannot point outside its sidecar's directory |
| `Corpus.RecordingFor` | src/verify.rs:65-76 | A recording that is found exists and lies beside its sidecar |
| `Retention.WalkComplete` | src/verify.rs:312-343 | The walk finds exactly the sidecars and recordings that a lookup by path reaches without following links |
| `Retention.WalkOnce` | src/verify.rs:312-343 | It finds none of them twice |
| `Retention.WalkFails` | src/verify.rs:334-337 | It fails only at a file that is named like a sidecar and is not a manifest |
| `Naming.WalkLists` | src/verify.rs:309-343 | By name: the walk lists exactly the files that end in .age or .cast and not in .manifest.json, and the sidecars that end in the latter with the manifest in each |
| `Naming.UnsignedExactly` | src/verify.rs:151-154 | Reported as unsigned is exactly each file so named that no sidecar was checked against |
| `Naming.LocatesRecording` | src/verify.rs:65-76 | A sidecar's recording is the file it is named after, if that is there, otherwise the one its manifest names beside it, if that is |
| `Naming.EntryFails` | src/verify.rs:88-150 | Each error of an entry has its own condition |
| `Naming.ReportCounts` | src/verify.rs:120-163 | A report counts every sidecar found, and as pruned those that no recording was checked for, and says whether a chain was walked |
| `Naming.LastComponent` | src/verify.rs:73 | Of a recorded path only the last component counts |
| `Naming.JobsNameRecordings` | src/verify.rs:305-310 | The suffixes .cast, .cast.age and .kgv1.age are valid, and a job's file under them counts as a recording |
| `Naming.ValidIdMeans` | src/main.rs:256-278 | Accepted as user or session id: letters, digits, dot, underscore and dash, at least one and at most the given number |
| `Naming.ValidSuffixMeans` | src/main.rs:611-628 | Accepted as suffix: a dot, then 1 to 31 letters, digits and dots that do not start with a dot |
| `Retention.PruneWalk` | src/verify.rs:312-343 | After recordings are deleted it finds every sidecar again, and the recordings that are left |
| `Retention.RetentionExactly` | src/verify.rs:65-163 | Deleting any recordings of a tree that passes leaves a tree that passes if and only if no sidecar whose own recording is deleted falls back on a file, left under the name it recorded, with other content |
| `Retention.RetentionReports` | src/verify.rs:120-163 | The report is then the same but for two things: newly pruned are exactly the sidecars left without a recording, and unsigned exactly the recordings left that none is checked against |
| `Retention.RetentionPasses` | src/verify.rs:120-163 | Where no sidecar of a deleted recording has another file to fall back on and none shares its recording, deleting any recordings of a passing tree leaves a passing tree; the deleted signed ones, and only they, are newly counted as pruned |
| `Retention.SignedCorpusAges` | src/verify.rs:120-163 | Where nothing was unsigned, the pruned count rises by exactly the number deleted and nothing becomes unsigned |
| `Retention.UnsignedMeans` | src/verify.rs:151-154 | A file is reported as unsigned if and only if it is a recording that no sidecar was checked against |
| `Retention.FallbackDecides` | src/verify.rs:65-76 | One sidecar after any deletion: it passes if and only if what then answers for it, its own recording, a file under the recorded name or none, has the signed content |
| `Retention.BareSidecarFails` | src/verify.rs:66-72 | A sidecar with no stem names its own directory as the recording, and fails |
| `Verdict.CheckTree` | bin/katagrapho-verify.rs:125-217 | Green if and only if the log verifies, the head agrees with its tip, every sidecar and recording passes, the chain is accepted and nothing is unsigned; every other verdict states its ground, and the truncation check is skipped if and only if the log verifies and the head is unreadable |
| `EndToEnd.SessionJobsAreFresh` | src/main.rs:739-828 | The parts of one session become transactions on distinct recordings, valid for the chain, under the names the files were created with |
| `EndToEnd.LinkNamesSidecar` | src/main.rs:765-828 | The link in the header of a part is the hash stored in the sidecar, on disk, of the part before it, wherever that part's transaction completed |
| `EndToEnd.SessionSigned` | src/main.rs:765-864 | From the stream to the chain: where each part of a session had its sidecar placed, among any other transactions, the sidecars on disk list in part order exactly the chunk records read, and each says its own part's number, end reason, exit code and the session's header |
| `EndToEnd.PlacedStays` | src/main.rs:1206-1210 | On distinct recordings the sidecar that a transaction placed is still there, unchanged, after all others |
| `EndToEnd.SidecarsAttested` | src/main.rs:1139-1171 | Every sidecar on disk was placed by one of the transactions, and vouches for that one's recording |
| `EndToEnd.EntryVouches` | src/verify.rs:65-101 | A job's sidecar is checked against that job's recording and no other file ever: it passes if that is gone or has the signed digest, and otherwise names it |
| `EndToEnd.GreenAnytime` | bin/katagrapho-verify.rs:125-217 | On a host with live recorders, in any reachable state: the whole check is green if and only if the chain check passes and every recording on disk has the content signed in the sidecar beside it |
| `EndToEnd.RecordersVerify` | bin/katagrapho-verify.rs:125-217 | Any number of recorders of which none stops on the way, interleaved in any way with each other and with retention, leave a host on which the whole check is green if and only if no name was signed for twice; every manifest is then counted, every deleted recording as pruned, and nothing is unsigned |
| `EndToEnd.AgedHostVerifies` | src/verify.rs:120-163 | So it is after any further deletion of recordings, with exactly those newly counted as pruned |
| `Tamper.AcceptedShape` | src/chain.rs:316-393 | Any accepted log is unsigned entries, then one hash chain from GENESIS in which every link carries a valid signature |
| `Tamper.LinesAreNotManifests` | src/chain.rs:149-170 | No log line's preimage is a manifest's canonical text, so one key can sign both |
| `Tamper.SignedIsPrefix` | src/chain.rs:316-393 | Signed records that form a chain of honest links are a prefix of the honest records |
| `Tamper.LogTamperEvident` | src/chain.rs:293-394 | Whatever was done to the file, the signed entries of an accepted log are the first of those the host logged, unchanged and in order |
| `Tamper.EveryCutReads` | src/chain.rs:293-394 | For every n there is a cut of the host's own log, at the end of one of its lines, that is accepted with exactly its first n entries |
| `Tamper.OwnLogIsTrusted` | src/chain.rs:220-256 | An untouched host is within the assumptions: after any transactions its own log bears no valid signature but those the key made for its lines |
| `Legacy.UnsignedReads` | src/chain.rs:329-349 | Any number of unsigned lines verify by themselves, each as the record it was made from |
| `Legacy.UnsignedInFront` | src/chain.rs:329-349 | Put in front of any log, they change nothing else: the result is accepted if and only if the log was, with the invented entries first |
| `Legacy.LogPassesExactly` | src/chain.rs:293-394 | What a log can be read as without a forged signature, exactly: any unsigned records, then the first n of those the host logged, for any n |
| `Rollback.AnchoredAreCopies` | src/verify.rs:242-301 | Verified manifests accepted against a hash of the host's chain are the host's manifests up to it, on every signed field; collision-freedom alone suffices |
| `Rollback.OnlyEarlierStates` | bin/katagrapho-verify.rs:125-178 | Whatever was done to log, head and manifests, what passes with a readable head and a signed line is a state the host was in before |
| `Rollback.PassesExactlyEarlier` | bin/katagrapho-verify.rs:163-175 | Over a log with a signed line the check passes if and only if log and manifests are such a state and the head names the manifest of its last line |
| `Rollback.NothingCutOff` | bin/katagrapho-verify.rs:163-175 | With the head left alone after a logged commit, what passes is every line and every manifest |
| `Rollback.NoLineCutOff` | src/chain.rs:4-11 | The log alone, whatever became of the manifests: with the head left alone after a logged commit, a log with a signed line agrees with it if and only if every line is there |
| `Rollback.UnanchoredAreOriginals` | src/verify.rs:248-268 | Without an anchor, verified manifests of which none is forged pass if and only if their hashes are distinct and line up with the host's chain; on every signed field they are then its first manifests, or those and one more that the key signed to follow them, as for an orphaned sidecar |
| `Rollback.OnlyOwnManifests` | bin/katagrapho-verify.rs:125-178 | Whatever was done to log, head and manifests, with a signed line left or not: if no manifest signature is forged, the manifests that pass are of that kind, for all the key may have signed in any run |
| `Rollback.UnsignedLogReads` | src/chain.rs:329-349 | A log of one unsigned line verifies, whatever manifest hash it claims |
| `Rollback.StrippedLogPasses` | bin/katagrapho-verify.rs:163-175 | With the signed log replaced by one unsigned line, or removed, only the manifests are still checked |
| `Rollback.LostHeadHidesTruncation` | bin/katagrapho-verify.rs:152-161 | Where the head cannot be read, or it and the log are gone, those sets of sidecars ever placed pass, orphans included, that are a first part of the chain, or such a part and one manifest next behind it; of the committed ones, deletions are noticed exactly when they are not the newest |

## Left out

- SHA-256, ed25519, base64 and hex encoding: parameters of `Signing.Suite`, with the assumptions above.
- age encryption and its finalizer: a part's output is modelled as plaintext, and the bytes of a finished
  recording are a parameter of its transaction.
- JSON parsing and pretty printing: records and sidecars are parsed values, and `Codec` stands for the parser.
  Finite floats are identified with their printed text.
- UTF-8: texts are sequences of characters, so lengths count characters where the source counts bytes; the
  stream is bytes, with validity a parameter.
- A line that is both over the cap and not UTF-8: an error either way, reported here as too long.
- Counters are unbounded integers: `Session.SessionBounded` keeps them far below 64 bits under the accepted
  limits, and the part number saturates as in the source.
- `Session.SessionConserves`: says nothing about runs that end in an error, where the last part may be incomplete.
- I/O errors while a part is written: the model knows stream errors and name clashes only.
- Torn writes inside one log line, and power loss below fsync and rename: each write happens or does not.
- Temporary files: a leftover `.tmp` file is not part of the disk.
- Errors hashing the recording, and errors opening or taking the lock: a transaction that did not start.
- Malformed base64 in a signature: counted as a signature that is not accepted.
- Clock readings and the shutdown flag: parameters.
- `Protocol.VerdictAnytime`: decides a snapshot of one state; `Unlocked.ThreeReads` lets the verifier's three reads
  see three states. Each of the three is taken at one moment, though a directory walk takes time.
- Retention is a step that deletes a recording which no recorder is at work on. Deleting sidecars, the log or the
  head is the subject of `Deletion`, `Tamper` and `Rollback` instead.
- Directory read errors, special files, and file names that are not UTF-8: not in the tree model.
- `verify_single`, argument parsing, configuration loading, exit codes and messages.
- Privilege drop, resource limits, signal handlers, syslog, file modes and ownership.
- Key generation, packaging and the NixOS module.
- Which of several faults of a manifest set is reported first: `ChainCheck.CheckSingleChain` says what the
  reported one means.

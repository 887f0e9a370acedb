# Raeva: verified models of its planning, protocol and text code

Raeva resolves Maven projects into a lock file and exports them into a Maven local repository. This
project models, in Dafny, the parts of it whose correctness is hard to see from the code, and proves
what they are for. Each module follows one component:

- `Redact`: finding a secret in a URL path, where a `${...}` in the secret stands for any text. A
  greedy scan is proved equal to "some filling of the `${...}` stands in the text between segment edges".
- `MaskedUrls`: the list of mirror URLs that are shown masked.
- `FileLock`: the deadline file lock as a protocol of callers, helper threads, a shared cell and an
  OS lock, over every interleaving.
- `Retry`: the retry rule, first as the loop of one request, then as many requests over one shared
  cooldown, over every interleaving.
- `PropertiesKeys`, `Markers`, `MarkerText` and `JavaProperties`: the `_remote.repositories` files, from key
  escapes and surrogate pairs to the merge with the files earlier exports left, what is read of any such
  file, and what Maven reads of them.
- `Ambient`: the names of recorded host values: printing, parsing and the chunked comparison.
- `ExportQueue`, `SupportClosure`, `QueueingPass`, `QueuedLabels` and `RowOrder`: the queue that collapses
  several recordings of one file, the walk over a possibly cyclic graph of POM parents, the pass of one
  export that fills the queue, which repository ids and bytes its units end up with, and what the order of
  the locked rows means for it.
- `DestinationClaims`, `DestinationPlan`, `MetadataCleanup`, `Destinations` and `DisguisedFile`: whether
  planned files, checksums, markers and metadata can land on one name of the destination volume, and whether
  the rewriting and cleanup of metadata can touch a planned file.
- `MavenConfig`, `MavenReading` and `MavenFiles`: reading `.mvn/maven.config` as Maven does, what it reads
  of any file, and which values survive being written there.
- `SecurityPolicy`: a project may only narrow the user's policy.
- `NoProxy`: the CIDR entries of `NO_PROXY`.

`Prelude` holds `Option`, `Result` and what several modules share. Code that changes state step by step
is modelled by classes and by methods with loops, each proved against a specification function or
predicate; protocols are state machines whose runs are sequences of steps.
`dafny verify dfyconfig.toml` checks everything.

What the code cannot choose is a parameter: clocks, outcomes, jitter, file contents, the parent graph,
the order of versions, which names a volume folds, and how URLs and JSON parse.

## Where a stated promise does not hold

Each case has a lemma or method with a concrete input, and the exact condition under which the promise holds.

- A file lock timeout does not always mean that another holder still has the lock
  (`rv-fs/src/file_lock.rs`, lines 7-8): the lock may be free, or the caller's own helper may just have
  got it (`TimeoutOnFreeLock`). It does mean that exactly when the last change of the lock since the caller
  found it taken, if there was one, is another caller's taking it (`TimeoutMeaning`).
- `parse_remote_repositories` is not the inverse of `render_remote_repositories` for an id that holds a
  `>` or for an empty file name (`SeparatorInIdMoves`, `RoundTripExactly`, `RewriteKeepsExactly`).
- An `AmbientInput` that is a property lookup prints but does not parse back when its JSON holds a
  character that a terminal would hide (`UnsafeLookupIsLost`, `PrintThenParse`).
- Pushes of one file commute in pairs, not in threes (`TwoPushesCommute`, `ThreePushesDoNot`). The ids kept
  are the same in every order exactly when no push is a guess, none is recorded, each is one or the other,
  or the recorded ones name every id (`OrderMattersExactly`). The queueing pass pushes everything recorded
  first (`QueueExport`), so the order of that counterexample does not arise there, and `UnitIds` says which
  ids its units carry.
- A locked POM with a classifier is a file of its own, yet it marks the coordinate of the companion POM
  as queued. Since rows come sorted, the companion POM the lock pins is then missing exactly when it is no
  row itself, no file of a support POM and no plain copy, and every row of the coordinate has an extension
  that sorts no earlier than `pom`, such as `war` (`CompanionIsMissed`, `ExportSorted`; `QueueExport` has the
  condition for any order).
- The check that no planned file stands where metadata is removed compares spellings. On a volume that
  folds case the row `g:MAVEN:metadata-1-SNAPSHOT:xml` passes it, and if the directory already holds that
  file as `maven-metadata-1-SNAPSHOT.xml` the cleanup removes it as a list (`PlannedIsDeleted`). The cleanup
  deletes no planned file exactly when each that is a removed list or checksum on the volume is spelled as
  one in the plan, which holds on every volume that does not fold names (`AcceptedIsSafe`).
- `-D` and `-P` values that start with `=`, are empty or look like an option do not survive as attached values
  (`LeadingEqualsIsLost`, `AttachedFile`). On a line of its own a value does not survive when it starts with
  `#`, is empty, looks like an option or is cut in two as one (`CommentIsNoValue`, `SeparateFile`).
- `CommandLine::new` is documented to refuse the values Maven reads differently in the two places. It does
  not refuse all of them, `=x` and `#x` for example (`LeadingEqualsIsLost`, `CommentIsNoValue`);
  `ReadsAlikeExactly` has the condition for every value, of `-D` and of `-P`.

## Model

| member | source | states |
|---|---|---|
| `Redact.Find` | rv-config/src/redact.rs:189-192 | the result is the first place at or after the start where the part stands, and there is none exactly when no place exists |
| `Redact.Occurrences.Next` | rv-config/src/redact.rs:199-206 | the cursor passes over no occurrence, overlapping ones included, and ends only when none is left |
| `Redact.ClosingBrace` | rv-config/src/redact.rs:223-233 | finds exactly the brace that brings the nesting count to zero for the first time, or none when no brace does |
| `Redact.CutRebuilds` | rv-config/src/redact.rs:213-217 | a cut puts the value back together around its first closed `${...}` |
| `Redact.SplitLiteralParts` | rv-config/src/redact.rs:210-221 | the loop yields the literal parts that the two lemmas below characterise |
| `Redact.PartsDecompose` | rv-config/src/redact.rs:208-221 | the value is its parts with a balanced `${...}` between each two; no part but the last holds a `${`, and the last holds none that closes |
| `Redact.DecompositionIsUnique` | rv-config/src/redact.rs:208-221 | no other decomposition of that kind exists, so the parts are determined by their meaning |
| `Redact.EarliestStart` | rv-config/src/redact.rs:183-186 | the least place of the first part that starts a segment, or none exactly when there is no such place |
| `Redact.PlaceLast` | rv-config/src/redact.rs:181-194 | true exactly when some place at or after the start ends (and, for a single part, starts) a segment |
| `Redact.NextIsLater` | rv-config/src/redact.rs:187-193 | the exchange argument: when the greedy scan ends no later than any placement, every placement has its next part at or after the greedy position |
| `Redact.PlaceParts` | rv-config/src/redact.rs:183-194 | the greedy scan succeeds exactly when some placement of all parts exists |
| `Redact.HoldsValue` | rv-config/src/redact.rs:165-195 | true if and only if some part has text and the parts stand in order without overlap between two segment edges |
| `Redact.PlacedIffFilled` | rv-config/src/redact.rs:163-195 | placing the parts is possible exactly when some text for each gap lays them out in the text with edges at the first and last part |
| `Redact.FilledIsLaidOut` | rv-config/src/redact.rs:163-195 | a filling that stands between genuine edges lays out the parts |
| `Redact.LaidOutIsFilled` | rv-config/src/redact.rs:163-195 | conversely, parts laid out can be filled so that the whole filling has an edge at both ends, also when the value starts or ends with a `${...}` |
| `Redact.HoldsMeansSomeFilling` | rv-config/src/redact.rs:153-165 | holding a value means that the value with some text for each `${...}` stands in the text with a segment edge at both its ends, as documented |
| `Redact.HoldsMeansIsSegment` | rv-config/src/redact.rs:153-195 | a value without `${...}` and separators is held as a whole segment exactly when it is one of the pieces of the text between separators |
| `Redact.HoldsMeansOccurs` | rv-config/src/redact.rs:153-195 | without the demand for segments it is held exactly when it occurs in the text |
| `MaskedUrls.Inserted` | rv-config/src/redact.rs:31-33 | pushing and sorting adds exactly the new entry and keeps the longest first |
| `MaskedUrls.LogGrows` | rv-config/src/redact.rs:29-34 | a registration changes what counts only for its own URL, and only when it is the first to mask it |
| `MaskedUrls.MaskedBefore` | rv-config/src/redact.rs:30-30 | a URL is on the list exactly when some registration of it masked something |
| `MaskedUrls.MaskedUrls.Register` | rv-config/src/redact.rs:16-35 | after any sequence of registrations the list holds exactly those that count, the first for each URL, longest first |
| `MaskedUrls.MaskedUrls.Show` | rv-config/src/redact.rs:37-50 | a URL is rewritten by the longest registration that covers it up to an end, `/`, `?` or `#`, and left alone when none covers it |
| `MaskedUrls.CoversMeans` | rv-config/src/redact.rs:37-46 | a registration covers exactly its own URL and that URL with a `/`, `?` or `#` and any text behind it |
| `MaskedUrls.OneDecides` | rv-config/src/redact.rs:32-46 | at most one registration decides, so the text shown does not depend on the order of the list |
| `FileLock.StepKeepsInv` | rv-fs/src/file_lock.rs:21-75 | every step keeps the invariant that the kernel's owner is exactly the handle some holder, helper or cell answers for |
| `FileLock.AnswersAfter` | rv-fs/src/file_lock.rs:21-68 | whoever answers for the lock after a step answered for it before, unless the step took the free lock |
| `FileLock.InvAlways` | rv-fs/src/file_lock.rs:21-75 | the invariant holds in every state of every run of any number of callers |
| `FileLock.HoldersExclude` | rv-fs/src/file_lock.rs:6-15 | in every run at most one caller holds the lock, and one that got `Ok` owns it under the handle in its file |
| `FileLock.NothingLeftBehind` | rv-fs/src/file_lock.rs:35-39 | a caller that gave up and whose helper is through owns nothing in any run |
| `FileLock.HandOffIsSeen` | rv-fs/src/file_lock.rs:40-67 | a result in the cell always finds its caller awake or notified, and a finished helper of a waiting caller always left one |
| `FileLock.FreeLockIsTaken` | rv-fs/src/file_lock.rs:22-45 | in every run a first try takes a free lock at once, deadline or not, and otherwise starts a helper |
| `FileLock.ReportMeans` | rv-fs/src/file_lock.rs:32-43 | in every run a helper reports its lock, or its failure, to a caller that still waits, and gives the lock back when the caller is gone |
| `FileLock.LookMeans` | rv-fs/src/file_lock.rs:49-68 | in every run a caller that looks gets the lock exactly when the cell has it and the error exactly when the cell has that; with neither it times out exactly when the deadline has come and waits on exactly before it |
| `FileLock.DeadlineEndsTheWait` | rv-fs/src/file_lock.rs:49-62 | past its deadline a caller that looks returns; it gets the lock exactly when the helper handed it over |
| `FileLock.TimedOutIsLate` | rv-fs/src/file_lock.rs:6-9 | in every run a caller that timed out did so at its deadline or later |
| `FileLock.ChangeMeans` | rv-fs/src/file_lock.rs:21-75 | in every run a step that changes the owner gives the lock to its own caller or frees it |
| `FileLock.TimeoutMeaning` | rv-fs/src/file_lock.rs:7-9 | in every run another caller has the lock at a timeout exactly when the last change of the owner since the caller found the lock taken, if there was one, is an acquisition by another caller |
| `FileLock.TimedOutFoundTaken` | rv-fs/src/file_lock.rs:22-26 | in every run a caller that timed out found the lock with another caller when it first tried |
| `FileLock.TimeoutOnFreeLock` | rv-fs/src/file_lock.rs:58-62 | a run of four steps in which a caller times out while the lock is free |
| `FileLock.OwnerCanFree` | rv-fs/src/file_lock.rs:32-44 | from every reachable state the owner alone can free the lock in a bounded number of its own steps; a helper whose caller timed out needs one |
| `Retry.BusyWaitBounds` | rv-http/src/retry.rs:217-224 | a busy wait is at least `Retry-After`, at least the smaller of five seconds per retry and a minute, and at most a minute |
| `Retry.Raised` | rv-http/src/retry.rs:119-125 | a hold never moves back and covers the new instant |
| `Retry.Server.Hold` | rv-http/src/retry.rs:119-125 | the hold covers the wait from now on and never moves back |
| `Retry.CoolDown` | rv-http/src/retry.rs:178-189 | whatever other requests do meanwhile, it sleeps until no hold is left or the budget is spent, and no longer than the budget |
| `Retry.DecisionMeans` | rv-http/src/retry.rs:196-229 | the request waits exactly when the outcome is one to retry, a retry is left, the server asks for at most a minute and the wait fits the budget, and then for the wait of that retry |
| `Retry.TryOnce` | rv-http/src/retry.rs:189-232 | one attempt leaves the shared flag and the hold as its outcome demands, and is retried exactly under that condition |
| `Retry.Run` | rv-http/src/retry.rs:158-237 | whatever other requests do, it ends after one to `retries + 1` attempts; it succeeds exactly when the last one did, and otherwise gives up for a reason that holds of the last and of none before: a permanent failure, no retry left, a given-up server or second failed lookup, a demand over a minute, or a wait over the budget; every wait is the one of its retry and is really slept; each attempt starts with no hold left or the budget spent; the flag and the hold are left as the outcomes say |
| `Retry.InvAlways` | rv-http/src/retry.rs:158-237 | in every interleaving each request keeps its counts of retries, attempts and waits consistent with its policy |
| `Retry.WithinPolicy` | rv-http/src/retry.rs:153-157 | in every interleaving a request makes at most `retries + 1` attempts and sleeps at most its budget |
| `Retry.OutcomeIsReturned` | rv-http/src/retry.rs:196-198 | in every interleaving a request returns success exactly for a success, and at once for that and for a permanent failure |
| `Retry.SleepTakesTime` | rv-http/src/retry.rs:178-236 | in every interleaving a request that is awake has let at least the time pass that it counts as slept |
| `Retry.FailureIsRetried` | rv-http/src/retry.rs:209-235 | a transient or busy failure is retried exactly when a retry is left, the server asks for at most a minute and the wait fits the budget |
| `Retry.StepCounts` | rv-http/src/retry.rs:178-236 | each own step of a request uses up part of a bound, and no step of another request gives any of it back |
| `Retry.RequestEnds` | rv-http/src/retry.rs:158-237 | in every run, however long, a request takes a bounded number of own steps |
| `Retry.NeverStuck` | rv-http/src/retry.rs:178-236 | a request that is not done can always take a step once enough time passes |
| `Retry.HoldMovesForward` | rv-http/src/retry.rs:118-125 | over every run the shared hold only moves forward |
| `Retry.AttemptStarts` | rv-http/src/retry.rs:179-189 | an attempt starts exactly when no hold remains or the request's own budget is spent; otherwise the request sleeps until the hold ends or its budget is spent, whichever is first |
| `Retry.PendingHold` | rv-http/src/retry.rs:226-232 | from a busy answer until its hold is stored, however the steps of other requests fall in between, the instant to be stored is the wait counted from some moment since the answer |
| `Retry.BusySleeps` | rv-http/src/retry.rs:226-235 | when that hold is stored the request goes to sleep for the whole wait, and the hold covers it from the answer on and reaches no further than the wait from now, unless another's does |
| `Retry.HoldIsShort` | rv-http/src/retry.rs:214-231 | in every run the shared hold is the one found at the start or reaches at most a minute ahead |
| `Retry.BusyHoldsOthersBack` | rv-http/src/retry.rs:106-111 | once the hold of a busy answer is stored, no other request starts an attempt before the wait, counted from the answer, ends, unless its own budget is spent |
| `Retry.LastOutcomeIsKept` | rv-http/src/retry.rs:191-192 | the per-request flag says whether that request's last attempt failed its lookup |
| `Retry.FlagMeansGivenUp` | rv-http/src/retry.rs:108-111 | the shared flag is set exactly when some request failed two lookups in a row and no attempt got past the lookup since |
| `Retry.LookupIsRetried` | rv-http/src/retry.rs:12-16 | a failed lookup is retried exactly when it is the first in a row, the server is not given up, a retry is left and the wait fits |
| `PropertiesKeys.DecodeEncode` | rv-export/src/metadata.rs:587-589 | decoding the UTF-16 units of any text gives the text, surrogate pairs included |
| `PropertiesKeys.ParseHex` | rv-export/src/metadata.rs:574-575 | the four hex digits written for any unit read back as that unit |
| `PropertiesKeys.HexValueMeans` | rv-export/src/metadata.rs:574-575 | exactly the sixteen digits in either case have a value, which is their place |
| `PropertiesKeys.PlainIsKept` | rv-export/src/metadata.rs:621-647 | a key is written as it is exactly when all its characters are printable and none means something in a key |
| `PropertiesKeys.EscapeKey` | rv-export/src/metadata.rs:625-647 | the loop computes the escaped key that the lemmas are about |
| `PropertiesKeys.CollectUnits` | rv-export/src/metadata.rs:563-588 | the loop with its character cursor yields the units of the whole key, truncated and malformed escapes included |
| `PropertiesKeys.UnescapeKey` | rv-export/src/metadata.rs:560-590 | the loop computes the unescaped key that the lemmas are about |
| `PropertiesKeys.UnescapeEscaped` | rv-export/src/metadata.rs:558-647 | an escaped key is read back as the key whatever text follows it |
| `PropertiesKeys.UnescapeEscape` | rv-export/src/metadata.rs:558-560 | unescaping undoes escaping for every Unicode text |
| `Markers.EscapedKey` | rv-export/src/metadata.rs:621-624 | an escaped key is printable ASCII, starts no comment, and holds a `>` exactly when the key does |
| `Markers.ParseMarkers` | rv-export/src/metadata.rs:533-556 | the loop collects exactly what each line stands for |
| `MarkerText.LinesOfText` | rv-export/src/metadata.rs:535-535 | any text is read line by line, whether a line ends in a line feed or in both characters, with a last line that needs no end |
| `MarkerText.TextHasLines` | rv-export/src/metadata.rs:535-535 | every text is such a sequence of lines |
| `MarkerText.SplitMeans` | rv-export/src/metadata.rs:536-550 | a line, also a foreign one, gives a name and an id exactly when it is these with a `>` between and a `=` behind, the id without `>`, no comment, and white space around it |
| `MarkerText.ParseMeans` | rv-export/src/metadata.rs:528-556 | the entries read of any text are exactly those some line of it spells, unescaped and with a file name; all other lines are ignored |
| `Markers.InOrder` | rv-export/src/metadata.rs:600-601 | the set is taken in the order of its pairs |
| `Markers.LinesAreSorted` | rv-export/src/metadata.rs:592-619 | the lines come in the order of the code points of the file names, and of the ids within one file |
| `Markers.OneText` | rv-export/src/metadata.rs:592-599 | a set of entries has one text, so the output is deterministic |
| `Markers.RenderMarkers` | rv-export/src/metadata.rs:600-619 | the text is the header and one line per entry in sorted order, and reads back as what survives of the set |
| `Markers.Survivor` | rv-export/src/metadata.rs:540-553 | an entry survives unchanged exactly when it has a file name and an id without `>`; what survives can always be written again |
| `Markers.ParseRendered` | rv-export/src/metadata.rs:536-553 | reading the line of any entry gives exactly its survivor |
| `Markers.ParseRender` | rv-export/src/metadata.rs:533-619 | reading a rendered file gives exactly the survivors of its entries |
| `Markers.RoundTripExactly` | rv-export/src/metadata.rs:528-556 | rendering then parsing gives back the same set if and only if every entry has a file name and an id without `>` |
| `Markers.SeparatorInIdMoves` | rv-export/src/metadata.rs:540-550 | a concrete id with a `>` of which a part comes back in the file name |
| `Markers.Accumulator.Record` | rv-export/src/metadata.rs:484-489 | adds one entry to its directory and changes no other |
| `Markers.WriteOne` | rv-export/src/metadata.rs:507-522 | a file that says it all already is untouched; otherwise it becomes the one text of what it held and what is new; fails exactly when the file cannot be read, or must be written and cannot; other directories keep their files |
| `Markers.Accumulator.WriteAll` | rv-export/src/metadata.rs:505-525 | the same for every recorded directory; it fails exactly when some directory stops it, and what it did until then is what an export that recorded less would have done |
| `Markers.WriteAdds` | rv-export/src/metadata.rs:498-504 | one export adds its entries and drops none |
| `Markers.HistoryIsUnion` | rv-export/src/metadata.rs:498-504 | after any sequence of exports each file reads as what it first held and everything recorded for it |
| `Markers.RepeatedPassChangesNothing` | rv-export/src/metadata.rs:503-519 | repeating an export, whatever ran in between, changes no byte of any marker file |
| `Markers.HistoryIsTidy` | rv-export/src/metadata.rs:594-599 | after any sequence of exports every marker file is still the one text of what it says |
| `Markers.SameRecordsSameBytes` | rv-export/src/metadata.rs:594-599 | however the same entries are spread over exports, and in whatever order these run, they leave the same bytes in every marker file |
| `Markers.RewriteKeepsExactly` | rv-export/src/metadata.rs:520-522 | a rewrite keeps what a file held exactly when all of it can be represented |
| `JavaProperties.KeyEndsAtValue` | rv-export/src/metadata.rs:600-619 | by the rules of `java.util.Properties` the key of a rendered line ends at its last character, the `=` |
| `JavaProperties.ConvertKey` | rv-export/src/metadata.rs:621-647 | undoing the escapes as `java.util.Properties` does gives the UTF-16 text of the key, whatever follows it |
| `JavaProperties.MavenReadsTheKey` | rv-export/src/metadata.rs:465-472 | `java.util.Properties` reads each rendered line as one property with an empty value whose key is the file name, `>` and the id, for all Unicode text |
| `Ambient.CheckProjectPath` | rv-lock/src/ambient.rs:145-157 | true exactly when every name is a real one and no prefix of the path leads above the project |
| `Ambient.LastIs` | rv-lock/src/ambient.rs:432-480 | the last ` is ` of a printed condition stands before its outcome, whatever the condition's text holds |
| `Ambient.PrintThenParse` | rv-lock/src/ambient.rs:272-480 | printing then parsing gives back every constructed input, except exactly a lookup whose JSON is not terminal-safe |
| `Ambient.UnsafeLookupIsLost` | rv-lock/src/ambient.rs:446-451 | the JSON of a lookup whose expression holds a DEL is constructed and printed but does not parse back |
| `Ambient.ParseThenPrint` | rv-lock/src/ambient.rs:385-480 | whatever parses prints as the text it was read from and passes the constructor's checks; a lookup prints as the normal form of the JSON in that text |
| `Ambient.NextRun` | rv-lock/src/ambient.rs:404-413 | refilling a run loses no byte and stops short only at the end of the text |
| `Ambient.RunDecides` | rv-lock/src/ambient.rs:417-421 | comparing a run either decides the order of the whole texts or leaves it to the rest |
| `Ambient.ComparePieces` | rv-lock/src/ambient.rs:393-424 | the chunked loop gives the order of the concatenated bytes wherever the pieces end |
| `Ambient.Utf8Order` | rv-lock/src/ambient.rs:399-424 | the order of UTF-8 bytes is the order of the code points |
| `Ambient.Compare` | rv-lock/src/ambient.rs:393-424 | the order of two inputs is the byte order of their printed texts, which is the order of their code points |
| `Ambient.LexEqual` | rv-lock/src/ambient.rs:393-424 | the order says equal exactly for equal texts |
| `Ambient.LexFlips` | rv-lock/src/ambient.rs:393-424 | the order is antisymmetric |
| `Ambient.LexTransitive` | rv-lock/src/ambient.rs:393-424 | the order is transitive |
| `Ambient.Utf8Injective` | rv-lock/src/ambient.rs:399-401 | texts with the same bytes are the same text |
| `Ambient.Utf8Shape` | rv-lock/src/ambient.rs:399-401 | the bytes of a character are of the form UTF-8 prescribes: the first tells the length, and the others are of a kind no first byte has |
| `Ambient.SamePrintSameInput` | rv-lock/src/ambient.rs:364-391 | printing is injective on constructed inputs |
| `Ambient.EqualOnlyWhenSame` | rv-lock/src/ambient.rs:393-424 | two constructed inputs compare equal exactly when they are the same |
| `ExportQueue.CollapsedMeaning` | rv-export/src/export.rs:322-337 | a closed form of any number of pushes of one file: which pushes contribute their ids, and that source, bytes and replace flag are the first one's |
| `ExportQueue.TwoPushesCommute` | rv-export/src/export.rs:292-294 | two recordings of one file leave the same ids in either order |
| `ExportQueue.ThreePushesDoNot` | rv-export/src/export.rs:322-337 | three recordings whose ids depend on the order |
| `ExportQueue.OrderMattersExactly` | rv-export/src/export.rs:322-337 | every order of a file's pushes keeps the same ids if and only if no push is a guess, none is recorded, each is one or the other, or the recorded ones name every id |
| `ExportQueue.FirstDecides` | rv-export/src/export.rs:328-337 | with an id that only unrecorded pushes name, the push put first decides whether it is kept |
| `ExportQueue.RecordedFirstIds` | rv-export/src/export.rs:322-337 | when recorded pushes come first, the ids are those of all pushes that are no guess, or of all pushes when none is recorded |
| `ExportQueue.Queue.Push` | rv-export/src/export.rs:306-339 | succeeds exactly when the bytes agree with every earlier push of the file; a failed push changes nothing; the queue keeps one unit per file, indexed exactly, equal to what its pushes collapse to |
| `ExportQueue.QueuedBytes` | rv-export/src/export.rs:284-305 | no two units name one file, and each has the bytes of every push of its file, of which there is one |
| `ExportQueue.UnitIds` | rv-export/src/export.rs:284-337 | when recorded pushes come first, a queued unit carries exactly the ids of its file's pushes, a guess's only when none of these is recorded |
| `ExportQueue.AgreesWithAll` | rv-export/src/export.rs:312-321 | comparing with the one queued unit decides agreement with all pushes |
| `SupportClosure.SupportPomFor` | rv-export/src/export.rs:1052-1080 | the exact pin, else the highest pin in the range, and none exactly when no pin fits |
| `SupportClosure.ReachFurther` | rv-export/src/export.rs:1096-1117 | whatever a reached reference resolves to is reached by a chain of parents from the given references |
| `SupportClosure.PushPin` | rv-export/src/export.rs:1146-1200 | the whole unit of a pin's file is pushed, or refused because other bytes are queued |
| `SupportClosure.QueueNode` | rv-export/src/export.rs:1131-1200 | only files of the pin are queued: its own always and its build or plain copy unless that was marked before; each is pushed as one unit with the pin's bytes, a support POM's source, the pin's repository ids (none for the plain copy of a build) and the replace flag exactly for a plain `SNAPSHOT` |
| `SupportClosure.Count` | rv-export/src/export.rs:1115-1130 | the counter is the number of distinct pins counted; it refuses exactly when that exceeds the limit |
| `SupportClosure.Visit` | rv-export/src/export.rs:1117-1145 | a pin seen for the first time is counted once and its files are queued, or the failure is its own |
| `SupportClosure.GrownMore` | rv-export/src/export.rs:1096-1200 | visiting one more reached pin keeps that only reached pins were counted, only their files queued, that everything marked is queued, and that the new files are there with their bytes, source and ids |
| `SupportClosure.Turn` | rv-export/src/export.rs:1096-1203 | one turn keeps the invariants of the walk, and takes a reference off the list or counts a new pin |
| `SupportClosure.EnqueueSupportClosure` | rv-export/src/export.rs:1082-1203 | ends on every parent graph; on success every reference and the parent of every POM queued is queued or a reactor module, and only files of pins reached from the references were added; a failure names a reached reference that is neither pinned nor a module, more reached pins than the limit, a reached pin without bytes, or a reached pin with other bytes; once all pins are marked a walk changes nothing |
| `QueueingPass.SeedsAreFiles` | rv-export/src/export.rs:549-567 | a walk from every pin leaves files of pins only, the own file of every pin, and all files when no pin is another's build |
| `QueueingPass.Seed` | rv-export/src/export.rs:549-567 | after the seeds every pin is marked and queued, nothing but files of pins is, and every push is recorded |
| `QueueingPass.SeedsArePushed` | rv-export/src/export.rs:549-567 | a walk from every pin pushes the whole unit of each pin's own file, and of its copy when no pin is another's build |
| `QueueingPass.CheckRefs` | rv-export/src/export.rs:1082-1203 | after the seeds a walk adds nothing: it tells whether every reference is covered, and otherwise names one that is neither pinned nor a module |
| `QueueingPass.QueueCompanion` | rv-export/src/export.rs:673-721 | the companion POM is queued exactly when the lock pins it and it is neither queued nor marked; the failures are told by the row |
| `QueueingPass.SubmitCompanion` | rv-export/src/export.rs:683-721 | pinned bytes of a companion POM are compared with those queued, or queued when nothing marked them |
| `QueueingPass.PushFile` | rv-export/src/export.rs:752-762 | a row's file is pushed with the row's bytes and repository ids and the source and replace flag of a package, and nothing else is |
| `QueueingPass.QueueFile` | rv-export/src/export.rs:673-762 | an artifact is queued after its companion POM |
| `QueueingPass.IsPinConflict` | rv-export/src/export.rs:734-743 | the test finds exactly the rows that are a companion POM themselves and have other bytes than the lock pins for it |
| `QueueingPass.QueuePom` | rv-export/src/export.rs:722-762 | a POM is queued after its parents, which are covered, and marks its coordinate whatever its classifier |
| `QueueingPass.QueueItem` | rv-export/src/export.rs:649-762 | the files queued and the coordinates marked by one row, exactly |
| `QueueingPass.RowStep` | rv-export/src/export.rs:649-762 | one row keeps that a pinned companion POM is queued exactly when it is a seed, a row, or the first row of its coordinate is no POM |
| `QueueingPass.PushedStep` | rv-export/src/export.rs:649-762 | one row keeps that every row's own unit was pushed, and the unit of its companion POM unless a pin or an earlier POM row has the file |
| `QueueingPass.CopyKey` | rv-export/src/export.rs:1347-1363 | a file is copied exactly when its coordinate is requested as a `-SNAPSHOT`, and to the file that differs in the version only |
| `QueueingPass.QueueItems` | rv-export/src/export.rs:649-767 | the same for all rows: which companion POMs are queued is told exactly by the rows |
| `QueueingPass.QueuePlainCopies` | rv-export/src/export.rs:1322-1377 | the plain copy of every requested timestamped unit is added and nothing else, and all parents stay covered |
| `QueueingPass.QueueExport` | rv-export/src/export.rs:541-769 | when the whole pass succeeds, every pin, every row and every project parent is there, and so is the parent of every POM queued by any step; pins, rows and companion POMs are pushed with their own bytes, source, ids and replace flag; a row that is a companion POM itself has the bytes the lock pins; which companion POMs are there is told exactly; everything pushed is such a unit or a plain copy; recorded pushes come first; when it fails, what it was told holds the cause |
| `QueueingPass.UnitParentCovered` | rv-export/src/export.rs:705-712 | in terms of the files written: the parent of every POM among the units is covered |
| `QueuedLabels.UnitLabels` | rv-export/src/export.rs:284-337 | which repository ids a unit of the finished queue carries: those its rows record always, those of support POMs, and a guess only where no support POM has the file |
| `QueuedLabels.LabelledExport` | rv-export/src/export.rs:541-769 | the queue of a pass that succeeds meets what `UnitLabels` asks |
| `QueuedLabels.CopyIsLatest` | rv-export/src/export.rs:1168-1180 | what is pushed under the plain coordinate of a snapshot that is not pinned is its highest pinned build |
| `QueuedLabels.PlainFileIsLatest` | rv-export/src/export.rs:1168-1200 | such a snapshot with pinned builds gets a plain file, with the bytes of the highest |
| `RowOrder.CompanionMissingExactly` | rv-export/src/plan.rs:246-271 | sorted rows of a release queue its companion POM if and only if it is a row, no row of the coordinate is a POM, or some row has an extension that sorts before `pom` |
| `RowOrder.ExportSorted` | rv-export/src/export.rs:541-769 | an export of sorted rows has a pinned companion POM of a release if and only if the rows queue it, a support POM supplies it, or it is a plain copy |
| `RowOrder.CompanionIsMissed` | rv-export/src/export.rs:447-458 | an export of two sorted rows, a POM with a classifier and a `war`, succeeds with the `war` queued and its pinned companion POM not |
| `DestinationClaims.IndexedIsSeparate` | rv-export/src/export.rs:1909-2008 | the index invariant implies that no two granted requests conflict, for any name function |
| `DestinationClaims.GrantedIndexed` | rv-export/src/export.rs:1962-2006 | a grant keeps every name of every earlier request leading to a claim that answers for it, although one claim joins several |
| `DestinationClaims.GrantedGrounded` | rv-export/src/export.rs:1963-2006 | a grant keeps every claim spelled as one of its own requests |
| `DestinationClaims.GrantedOneClass` | rv-export/src/export.rs:1992-2006 | with one folding rule a claim's names stay those of each of its requests |
| `DestinationClaims.GrantedDirsApart` | rv-export/src/export.rs:1962-2006 | when directories have one name each, a grant keeps every directory claim under a single name |
| `DestinationClaims.RefusedHasConflict` | rv-export/src/export.rs:1962-1991 | a refusal is for a real conflict: always for files and groups, and for other directories when the granted directories have one name each, whatever names the files have |
| `DestinationClaims.AsciiHasOneName` | rv-export/src/export.rs:1919-1952 | an ASCII path has one name under any folding rules that agree on ASCII, and directories are built from coordinate fields validated to ASCII |
| `DestinationClaims.RefusedClashes` | rv-export/src/export.rs:1962-1991 | a refused request of a plan means that two requests of the plan conflict |
| `Destinations.DestinationPaths.TakeIn` | rv-export/src/export.rs:1955-1991 | all claims the names lead to admit the request and absorb it, or one of them refuses it |
| `Destinations.DestinationPaths.Claim` | rv-export/src/export.rs:1954-2008 | granted only when nothing granted before conflicts, with the index invariant kept; refused only for a conflict, given one name per directory |
| `Destinations.DestinationPaths.File` | rv-export/src/export.rs:2010-2018 | claims the file and every directory on its way, in order; granted exactly when none of them conflicts, given one name per directory |
| `DestinationClaims.FilesAreSeparate` | rv-export/src/export.rs:1909-2018 | of two granted files: sharing a name means one owner, neither shares a name with a directory on the other's way, and directories below the group that share a name are spelled alike |
| `DestinationPlan.VersionIdsAre` | rv-export/src/export.rs:2126-2139 | the ids of a version directory are the usable ones among those its timestamped files name, and it is planned exactly when the export is about it |
| `DestinationPlan.PlaceHome` | rv-export/src/export.rs:2108-2159 | every directory the planner goes through is one the export is about, with exactly its ids |
| `DestinationPlan.HomePlace` | rv-export/src/export.rs:2108-2159 | the planner goes through every directory the export is about |
| `DestinationPlan.OneHomeEach` | rv-export/src/export.rs:2108-2159 | with no colon in a coordinate field, the coordinate text of a list tells its directory, whether it is an artifact's or a version's |
| `DestinationPlan.OwnersAreOne` | rv-export/src/export.rs:2070-2159 | one path per coordinate and no colon in its fields give every owner of the plan one path |
| `Destinations.DestinationPaths.Ask` | rv-export/src/export.rs:2010-2018 | a file of the plan and its directories are claimed; given one name per directory, a refusal means that two requests of the plan conflict |
| `Destinations.DestinationPaths.Metadata` | rv-export/src/export.rs:2020-2034 | a metadata list and its four checksums are claimed for that list, or two requests conflict |
| `Destinations.DestinationPaths.ClaimChecksums` | rv-export/src/export.rs:2025-2032 | all four checksums are claimed for the list, or two requests conflict |
| `Destinations.DestinationPaths.MetadataLists` | rv-export/src/export.rs:2036-2067 | every usable listed id gets its list, and every empty one gets a list under an id that folds alike, or two requests conflict |
| `Destinations.DestinationPaths.PlanFile` | rv-export/src/export.rs:2083-2107 | an artifact, its two checksums and its markers are claimed, with all their directories, or two requests conflict |
| `Destinations.DestinationPaths.PlanPlaces` | rv-export/src/export.rs:2108-2159 | every list the artifact and version directories need is claimed, up to ids that fold alike, and exactly the names of the cleaned directories are counted, or two requests conflict |
| `Destinations.DestinationPaths.CheckCleanup` | rv-export/src/export.rs:2160-2186 | accepts exactly when no claim is spelled as unplanned metadata in a cleaned directory |
| `MetadataCleanup.RemovalIsPlanned` | rv-export/src/export.rs:1408-1455 | every directory the writer removes metadata from is one the plan counted as cleaned |
| `MetadataCleanup.CleanedIsRemoved` | rv-export/src/export.rs:1408-1455 | conversely, every directory counted as cleaned is one the writer removes metadata from |
| `MetadataCleanup.RemovedExactly` | rv-export/src/export.rs:1649-1664 | where list files that are one have one name in lower case, the removal takes exactly the lists, with their checksums, that are no kept list under any spelling |
| `MetadataCleanup.PlacesHaveLists` | rv-export/src/export.rs:2108-2159 | the lists claimed directory by directory are all those the metadata of the export asks for |
| `MetadataCleanup.FoldedSumsShare` | rv-export/src/export.rs:1919-1952 | when folding a name that ends in `.xml` does not depend on a checksum extension behind it, checksums of lists that share a name share one |
| `MetadataCleanup.NotSparedIsStray` | rv-export/src/export.rs:2160-2186 | the check, made on sets of names, fails a path exactly when it is spelled as metadata, lies in a cleaned directory and shares no name with a list of the plan |
| `MetadataCleanup.SparedIsMetadata` | rv-export/src/export.rs:2160-2186 | a planned file that the check lets stand under a list's name, or a checksum's, belongs to that list |
| `MetadataCleanup.RewrittenIsListed` | rv-export/src/export.rs:1384-1577 | every list the writer rewrites for the metadata of the export is claimed, or one in the same directory whose id folds alike is |
| `MetadataCleanup.RewrittenIsMetadata` | rv-export/src/export.rs:1384-1577 | when ids that fold alike name one file, a planned file that is a list the writer rewrites, or its checksum, under any spelling, is metadata |
| `MetadataCleanup.UndisguisedIsKept` | rv-export/src/export.rs:1622-1771 | a planned file that is spelled as metadata cannot be deleted, under any spelling the directory holds |
| `MetadataCleanup.AcceptedIsSafe` | rv-export/src/export.rs:1622-1771 | on any volume the names allow, the cleanup of an accepted plan deletes no planned file if and only if none is a removed list or checksum that is spelled otherwise in the plan; without folding there is none |
| `Destinations.PlannedDestinations` | rv-export/src/export.rs:2070-2188 | an accepted plan keeps all files apart, claims every planned file and every list the export needs, rewrites metadata only, and deletes no planned file under the condition above; given one name per directory, a refused plan holds two conflicting requests or one spelled as unplanned metadata in a cleaned directory |
| `DisguisedFile.PlannedIsDeleted` | rv-export/src/export.rs:2160-2186 | a plan of one row that is accepted on a volume that folds case, with the row's own file among what the cleanup can delete |
| `DisguisedFile.ListIsRefused` | rv-export/src/export.rs:2108-2159 | a plan of one row whose file stands where the export would write a list is refused |
| `MavenConfig.ReadLines` | rv-config/src/maven_config.rs:348-368 | the iterator yields the lines by Java's three line ends |
| `MavenConfig.CleanArgs` | rv-config/src/maven_config.rs:373-408 | the buffer loop joins and unquotes as the recursive definition does, with the same failure |
| `MavenConfig.FlattenArgs` | rv-config/src/maven_config.rs:412-443 | the loop splits attached values as the recursive definition does, up to a `--` |
| `MavenConfig.ReadTokens` | rv-config/src/maven_config.rs:663-717 | the token loop gives the values, or the first error, of the recursive definition |
| `MavenConfig.WrittenValues` | rv-config/src/maven_config.rs:659-718 | the four stages composed on the text of a file |
| `MavenReading.CleanExactly` | rv-config/src/maven_config.rs:373-408 | for all arguments: joining fails exactly when one is a single quote by itself, and otherwise gives one text per group, a group being an unquoted argument or a run from an opening to the next closing quote, joined by spaces without the quotes |
| `MavenReading.FlattenExactly` | rv-config/src/maven_config.rs:421-440 | for every argument: it is cut at its first `=` exactly when it starts with a dash, is no option and what stands before the `=` names one, else behind its letter exactly when that is an option, and is left whole otherwise |
| `MavenReading.NotDashesAre` | rv-config/src/maven_config.rs:669-672 | of the tokens behind a `--` all are taken in order, but further `--` |
| `MavenReading.ParseExists` | rv-config/src/maven_config.rs:663-717 | all tokens fall into options with and without values, entries, and an end |
| `MavenReading.ReadMeans` | rv-config/src/maven_config.rs:663-717 | for all tokens: the first option it refuses decides the error, else the entries are refused, else the values of `-D` and of `-P` are those given, in order, the two settings flags are set exactly when given a value, and the selection names the used options that select, each once, in the order of their first use |
| `MavenReading.FileMeans` | rv-config/src/maven_config.rs:659-718 | the same for the text of any file |
| `MavenFiles.LinesOfFile` | rv-config/src/maven_config.rs:347-368 | a file reads as its lines, whichever of the three line ends each has, except for empty lines and comments |
| `MavenFiles.OptionsTakeValues` | rv-config/src/maven_config.rs:272-319 | in Maven's table `-D` and `-P` take a value and no other option starts with `D` or `P` |
| `MavenFiles.FlattenValue` | rv-config/src/maven_config.rs:421-440 | an attached `-Dvalue` or `-Pvalue` always splits after the letter; a value that starts with `=` loses it |
| `MavenFiles.AttachedFile` | rv-config/src/maven_config.rs:330-718 | a file of `-Dvalue` lines, or of `-Pvalue` lines, gives back the values, unquoted and in order, and nothing else, if and only if each is not empty, does not start with `=` and is not written like an option |
| `MavenFiles.SeparateIsRead` | rv-config/src/maven_config.rs:412-717 | the same for tokens on their own, before and behind a `--`: any other value is missing, or its first half is read for it |
| `MavenFiles.SeparateFile` | rv-config/src/maven_config.rs:330-718 | a file of `-D` or `-P` and value lines gives back the values `CommandLine::new` keeps, in order, if and only if none is empty or a comment, none is written like an option, and none in front of the first `--` is cut in two |
| `MavenFiles.LeadingEqualsIsLost` | rv-config/src/maven_config.rs:429-434 | a concrete attached value that is read without its leading `=` |
| `MavenFiles.CommentIsNoValue` | rv-config/src/maven_config.rs:660-662 | a concrete accepted value that is a comment on its own line, so that its `-D` has no value |
| `MavenFiles.AcceptedShape` | rv-config/src/maven_config.rs:106-119 | a value is accepted exactly when it is not quoted or its quotes are one pair around all of it, and it is kept unquoted |
| `MavenFiles.ReadsAlikeExactly` | rv-config/src/maven_config.rs:97-119 | for every value of `-D` and of `-P`: Maven reads it alike attached and on its own line if and only if it is accepted, starts with neither `=` nor `#`, is left whole as a token and, if quoted, is no option |
| `SecurityPolicy.UnderTransitive` | rv-config/src/config.rs:2296-2306 | matching an origin and a path prefix that ends at a segment is transitive |
| `SecurityPolicy.UnderMeans` | rv-config/src/config.rs:2296-2306 | a URL matches exactly when its origin is the allowed one and the segments of the allowed path lead its own, an end slash aside |
| `SecurityPolicy.Partition` | rv-config/src/config.rs:166-168 | the kept entries are the wanted ones in order, and something is dropped exactly when an entry is not wanted |
| `SecurityPolicy.MergeSecurity` | rv-config/src/config.rs:146-196 | fails exactly for an invalid user policy or project allowlist; otherwise gives the merged policy and exactly the keys under which the project asked for more |
| `SecurityPolicy.UserAllows` | rv-config/src/config.rs:151-156 | a user policy allows exactly the URLs and variables its file names, and nothing for a key left out |
| `SecurityPolicy.MergedAllows` | rv-config/src/config.rs:163-195 | the merged policy allows exactly the variables both name and the URLs under a project entry that the user policy allows, or the user's where the project says nothing |
| `SecurityPolicy.MergedOnlyNarrows` | rv-config/src/config.rs:70-81 | every URL and variable the merged policy allows, the user policy allows |
| `SecurityPolicy.KeptEntryIsAllowed` | rv-config/src/config.rs:187-193 | a project entry is allowed by the merged policy exactly when the user policy allows it |
| `SecurityPolicy.MergingAgainChangesNothing` | rv-config/src/config.rs:146-196 | merging the same project over the result changes nothing |
| `NoProxy.StartBits` | rv-config/src/proxy_env.rs:116-128 | the first `prefix` bits stay and the others are cleared, the full-width shift included |
| `NoProxy.StartIsRounded` | rv-config/src/proxy_env.rs:116-128 | as a number, the start is the address rounded down to a multiple of the size of the range |
| `NoProxy.MatchesExactly` | rv-config/src/proxy_env.rs:107-109 | a parsed entry matches an address if and only if the families agree and the first `prefix` bits are those written, for every prefix |
| `NoProxy.StartIsIdempotent` | rv-config/src/proxy_env.rs:116-128 | the start of a range is its own start |
| `NoProxy.LongerPrefixIsNested` | rv-config/src/proxy_env.rs:116-128 | a longer prefix names a range inside that of a shorter one |
| `NoProxy.StartIsFirst` | rv-config/src/proxy_env.rs:114-116 | what an entry stores is the least address of its range |

## Left out

- Linking, hashing, temporary files, canonical paths and permissions, HTTP clients and TLS: foreign calls without visible semantics.
- Parsing of URLs, TOML, XML and JSON, and Unicode folding and normalization: functions that stay arbitrary where a property needs them.
- Byte lengths: texts are sequences of Unicode characters, since the source's offsets in the modelled code fall on character boundaries; UTF-8 is modelled where bytes are compared.
- `repository_url_path` and the choice of secrets in `rv-config/src/redact.rs`: they hand a path and a value to the modelled matcher.
- URL parsing around `register_masked_url` and `mask`: the list works on URL text, and the placeholder for text that does not parse again is not modelled.
- FileLock: each OS lock call, critical section and wake-up is one step, and poisoned mutexes and a failed start of the helper thread count as an OS error of the call.
- Retry: the cooldown check and the start of the attempt are one step, and so are reading and writing the shared flag after an attempt; backoff values are arbitrary and durations do not overflow.
- Retry.Run: the jitter is at most half the step exactly; rounding of floating-point jitter is not modelled.
- `RetryPolicy::new`, the table of cooldowns per origin and the errors passed to `on_retry`: they would only add easy members.
- `Markers`: the directories are written in any order, where the source takes them sorted; which of several failing directories stops the export depends on that.
- ExportQueue.Queue.Push: repository ids are a set, so the sorting of their list is not modelled.
- `SupportClosure` and `QueueingPass`: the version order is a rank in the reals, version ranges and snapshot names are functions, the seeds come in any order, and project POMs are given by the parents they name.
- QueueingPass.SeedsAreFiles: a pin that is another pin's build is queued, but its own plain copy is only promised when there is no such pin, since the walk takes it for seen.
- QueuedLabels.UnitLabels: the ids of support POMs are promised when no pin is another's build, and those of a guessed companion POM when no POM row of its coordinate came before; which snapshots are requested in plain is a parameter.
- `Destinations`: an owner is a value with one case per kind of text the source builds, and the names of a path are an arbitrary non-empty set.
- DestinationClaims.RefusedHasConflict: for directories other than groups a granted directory must have one name, which `AsciiHasOneName` gives for the paths the code builds.
- MetadataCleanup.AcceptedIsSafe: on a folding volume it takes that each coordinate has one path, that no field holds a colon, which the source checks, and that checksums of lists that share a name share one.
- `MetadataCleanup`: which paths are one file is any relation that shares names and directories; hard and symbolic links are not modelled.
- `JavaProperties`: one line at a time, since no rendered line continues on the next.
- Expansion of `${...}` in `maven.config` values, profiles and settings files named by options.
- The rest of `rv-config/src/proxy_env.rs` (host suffixes, ports, percent decoding) and of `rv-config/src/config.rs`: per-branch rules.
- The resolver, the lock codec, lock drift, `rv-export/src/plan.rs`, version lists and stamps of `rv-export/src/metadata.rs`, the command line and its messages.

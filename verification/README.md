# FrameQ verification

A Dafny model of the parts of FrameQ that are hardest to get right: its
resumable downloads, its report parser and the second reader of the same reports, its
search of exception graphs, its model-cache renames and migration, its throttled
progress, its concurrent lifecycles, and the state machines of its desktop client.
`dafny verify dfyconfig.toml` checks everything.

Python code runs in the worker, TypeScript and Rust in the desktop client, TypeScript in
the server. Pure
code is modelled by functions. Code that changes things step by step is modelled by
methods over classes and loops, each proved equal to a function of the inputs or of the
old state, about which the theorems are then proved. Files, clocks, the network, other
processes and the outcome of every file operation are parameters, so a theorem holds for
all of them.

| file | what it models |
|---|---|
| `Text.dfy` | trimming, numerals, tags |
| `HttpHeaders.dfy`, `HeaderGrammar.dfy` | the response headers of a download, and exactly which values of theirs are read |
| `ResumableDownload.dfy`, `DownloadFailures.dfy` | one download attempt, and any sequence of attempts on a partial file; what an attempt raises, and when |
| `ExceptionWalk.dfy`, `Diagnostics.dfy` | the bounded breadth-first walk; classification into a closed set of events, and its validator |
| `DiagnosticContract.dfy` | the contract for these events, and that the validator is exactly it |
| `Utf8.dfy`, `MarkdownSplitter.dfy` | the bytes of a text, and reading them back; the transcript splitter |
| `Json.dfy`, `DissectionReport.dfy` | parsed JSON with Python's equality; the report's printer and parsers |
| `DissectionRoundTrip.dfy`, `AnswerReading.dfy` | what a parsed report is; exactly which answers are accepted, and as what |
| `StoredDissection.dfy` | storing a report and reading it back |
| `DesktopDissection.dfy`, `DesktopReading.dfy` | the desktop's own reader of the same reports, and exactly what it reads |
| `OnnxCache.dfy`, `CacheLayout.dfy` | promotion by renames with roll-back; migration between cache layouts |
| `ProgressThrottle.dfy`, `ProgressEvents.dfy` | the throttled callback; file names, language tags, message arguments and events on the wire |
| `SafeNames.dfy` | which file names are reported and what a tag is normalised to, said without the code that does it |
| `WebPageProtocol.dfy`, `ServerLifecycle.dfy` | processing a web page with abort at any await; starting, draining and stopping the server |
| `NoteTitle.dfy`, `Workflow.dfy`, `WorkflowEvents.dfy` | the worker's title step and the supervisor that settles it; the desktop's task state and its cancel controls; what each of its events does |
| `PreferenceWizard.dfy`, `WizardRuns.dfy` | the preference wizard and its validator; where it leads |
| `RequestIds.dfy` | identifiers of managed model calls |

## Where the code falls short of its purpose

Each of these is a property one would expect, a lemma with an input that fails it, and
the exact condition under which it holds.

- A 200 response that declares no size can have a truncated body installed
  (`UndeclaredBodyIsTruncated`, `AlwaysWholeIff`, `FallsShortIff`).
- The header check ties a resumed response to its request but does not look at where a
  fresh response begins: one that truthfully begins in the middle leaves a partial file
  that a later attempt completes and installs (`MisplacedStartIsInstalled`,
  `FreshRangeIsSafeIff`).
- The check of the content type drops the slash of an allowed family, so a type that merely
  begins like one, such as `videotape/html` for `video/`, is let through
  (`LooseFamilyIsAllowed`, `ContentTypeIsAllowedIff`).
- A stalled download keeps its partial file only if closing the file works
  (`StallIsKeptIff`).
- The reader of stored reports compares with Python's `==`, so `true` or `1.0` may stand
  for a chunk number and the stored form is not canonical (`BooleanTwinIsAccepted`,
  `AcceptedObjectIsCanonicalIff`, `OnlyChunkNumbersVary`). A report with a blank language
  can be written and not read back (`StoredReportReadsBack`).
- JavaScript trims U+FEFF and Python does not, and the desktop caps lists at 32 entries:
  a report the worker accepts can be refused whole (`ByteOrderMarkReportIsRefused`,
  `DesktopDecodesIff`).
- The validation of the ready ONNX cache answers "invalid" when a read fails. A valid
  cache is then renamed away, and if the renames fail as well it survives only as a
  back-up, which the next call sweeps away before anything else (`ValidCacheIsLost`,
  `TwoCallsLoseIff`, `ValidCacheIsUntouchedIff`, `ValidForGoodIff`, `NeverLostIff`).
- The layout migration judges a copied model file by its first four bytes, so a copy cut
  short can cost the intact original (`TruncatedCopyPasses`, `MigrationKeepsFilesIff`). A
  failed reading counts as "incomplete", so one is enough to overwrite a complete canonical
  root by a legacy one (`MisreadCanonicalIsOverwritten`, `CompleteCanonicalIsKeptIff`,
  `CanonicalIsSafeIff`).
- An attempt, total or progress sent as an integral float such as 1.0 is refused by the
  worker's validators and read by the desktop's (`IntegralFloatIsReadByTheDesktopOnly`,
  `ArgValidatorsDifferIff`, `DesktopReadsWorkerEventIff`).
- A server start that is still in its own checks when the shutdown begins goes on to call
  `listen` on an application already told to close (`ListensAfterShutdownIff`).
- A cancelled retry discards the saved task when the cancel command had failed and was
  taken back before the worker reported the cancellation (`RestoredCancelLosesTheTask`,
  `RetryCancelKeepsContentIff`, `CancelledRetryDependsOnTheRequest`,
  `RetriesLoseNothingIff`).
- The result of a retry that was not cancelled is filled in from what is shown, except for
  the draft: one without a draft, as after a failed command, clears it
  (`FailedCommandClearsTheDraft`, `DraftSurvivesIff`).
- A cancel command that fails after the retry's result has arrived puts the finished task
  into video extraction, which neither cancelling nor retrying ends (`RetryEndsIdleIff`,
  `LateFailureStrandsTheTask`).
- The title step does not guard its progress reports: one that raises leaves the title
  stored as being generated. The supervisor stores a failure over it, unless that save
  fails too (`StepRaisesIff`, `StaysGeneratingIff`).

The preference wizard is sound as it is used: its view selects only for the step on
screen (`OnScreenConfirmationIsValid`). The transitions alone do not enforce that, and
`SelectionIsSoundIff` says exactly what a caller must not do; `DroppedAngleIsRefused` is
such a caller, not a defect.

## Model

The theorems come first. The last rows are the methods: loops and state changes, each proved equal to the
function the theorems are about.

| member | source | states |
|---|---|---|
| `HttpHeaders.PositiveIntReads` | worker/frameq_worker/download_reliability.py:245-250 | a positive decimal, trimmed, reads as its number and zero as no size |
| `HttpHeaders.DeclaredSizeReads` | worker/frameq_worker/download_reliability.py:202-213 | the declared size is the Content-Range total, and only without one a positive Content-Length |
| `HttpHeaders.ContentRangeRoundTrip` | worker/frameq_worker/download_reliability.py:206-226 | a rendered Content-Range is read back: first byte as the start, size as the total unless zero |
| `HeaderGrammar.HeaderIs` | worker/frameq_worker/download_reliability.py:237-242 | a header has the value of the first field with its name in any letter case |
| `HeaderGrammar.PositiveIntIff` | worker/frameq_worker/download_reliability.py:245-250 | a size is read as n exactly from a Python literal of a positive n: perhaps a plus sign, then digits with single underscores between |
| `HeaderGrammar.RangeTotalIff` | worker/frameq_worker/download_reliability.py:206-213 | a total is read exactly from a text that ends in a slash, its numeral and perhaps white space |
| `HeaderGrammar.RangeStartIff` | worker/frameq_worker/download_reliability.py:216-226 | a start is read exactly from `bytes`, white space, its numeral, a dash, a numeral, a slash and a numeral or asterisk |
| `HttpHeaders.ContentTypeIsAllowedIff` | worker/frameq_worker/download_reliability.py:229-234 | a content type is allowed exactly when its media type, before any parameters, trimmed and in lower case, is an allowed type or begins with an allowed family |
| `HttpHeaders.FamilyIsAllowed` | worker/frameq_worker/download_reliability.py:229-234 | every type of an allowed family is allowed, whatever its parameters |
| `HttpHeaders.HtmlIsRefused` | worker/frameq_worker/download_reliability.py:12-12 | a web page is not among the types of a video |
| `HttpHeaders.LooseFamilyIsAllowed` | worker/frameq_worker/download_reliability.py:229-234 | a type outside the family that begins like it is allowed as well |
| `ResumableDownload.StreamFinishesIff` | worker/frameq_worker/download_reliability.py:84-107 | the stream finishes exactly when nothing raises, every chunk comes within the timeout of the last non-empty one and the whole stays within the limit; it then holds kept and received bytes |
| `ResumableDownload.StreamKeepsPrefix` | worker/frameq_worker/download_reliability.py:84-107 | however the stream ends the partial file is a prefix of kept plus received bytes, and on a stall never shorter than before |
| `ResumableDownload.InstallsIff` | worker/frameq_worker/download_reliability.py:53-124 | an attempt installs exactly under the stated conditions, installs exactly kept plus received bytes, and otherwise leaves the destination alone |
| `ResumableDownload.KeepRule` | worker/frameq_worker/download_reliability.py:119-124 | a failed attempt that has begun keeps the partial file exactly on a stall or size mismatch, extended by bytes of this body |
| `ResumableDownload.StallIsKeptIff` | worker/frameq_worker/download_reliability.py:83-123 | a stall keeps the partial file exactly when closing it works; a close that raises removes it |
| `ResumableDownload.AttemptKeepsPrefix` | worker/frameq_worker/download_reliability.py:53-124 | against a server with fixed bytes the partial file stays a prefix of them, whatever fails |
| `ResumableDownload.DeclaredInstallIsWhole` | worker/frameq_worker/download_reliability.py:109-118 | success against a declared total installs exactly the served bytes |
| `ResumableDownload.EveryRunIsSafe` | worker/frameq_worker/download_reliability.py:53-124 | over any sequence of attempts: partial file absent or a prefix, destination the original or exactly the served bytes, success only with the latter |
| `ResumableDownload.TruthfulIsHonest` | worker/frameq_worker/download_reliability.py:174-184 | past the header check, a response that tells its offset truthfully begins where the partial file ends, unless it answers a fresh request from the middle |
| `ResumableDownload.EveryTruthfulRunIsSafe` | worker/frameq_worker/download_reliability.py:53-199 | the same safety over any sequence of attempts for a server that only tells its offsets truthfully |
| `ResumableDownload.FreshRangeIsSafeIff` | worker/frameq_worker/download_reliability.py:174-184 | what a fresh attempt leaves is a beginning of the served bytes, whatever they are, exactly when the response began at the first byte |
| `ResumableDownload.MisplacedStartIsInstalled` | worker/frameq_worker/download_reliability.py:174-184 | two truthful responses after which a wrong file is installed |
| `ResumableDownload.UndeclaredBodyIsTruncated` | worker/frameq_worker/download_reliability.py:202-203 | a concrete undeclared response whose truncated body is installed |
| `ResumableDownload.FallsShortIff` | worker/frameq_worker/download_reliability.py:109-118 | a successful attempt falls short of the served bytes exactly when no total was declared and the body was cut, which needs a fresh 200 response |
| `ResumableDownload.AlwaysWholeIff` | worker/frameq_worker/download_reliability.py:109-118 | over all honest bodies, whatever installs is whole exactly when the response declares a size |
| `ResumableDownload.ResumeCompletes` | worker/frameq_worker/download_reliability.py:161-199 | resuming a kept partial file with the rest of the bytes under the standard header installs exactly the served bytes |
| `ResumableDownload.HeaderErrorIff` | worker/frameq_worker/download_reliability.py:161-199 | which refusal a response gets, for its status, range, type and size in this order, each with its own condition |
| `ResumableDownload.InstalledHeadersFit` | worker/frameq_worker/download_reliability.py:53-124 | whatever is installed came with an acceptable status, range, type and size |
| `ResumableDownload.HtmlIsNotInstalled` | worker/frameq_worker/download_reliability.py:186-191 | a web page in the place of a video is refused and leaves every file alone |
| `DownloadFailures.StreamHaltsIff` | worker/frameq_worker/download_reliability.py:83-107 | a stream halts with a code exactly when some arrival stops it for that reason after everything before it ran |
| `DownloadFailures.RaisesIff` | worker/frameq_worker/download_reliability.py:53-124 | an attempt raises each code exactly for that code's own reason, over headers, files, clock, limits and failing operations |
| `DownloadFailures.FreshFailureLeavesNone` | worker/frameq_worker/download_reliability.py:81-83 | a fresh attempt that cannot open its partial file leaves none, even if its clean-up fails |
| `ExceptionWalk.WalkIsSound` | worker/frameq_worker/diagnostic_events.py:148-169 | the walk starts at the exception, repeats nothing, has at most 8 nodes, all reachable |
| `ExceptionWalk.WalkVisitsNearestFirst` | worker/frameq_worker/diagnostic_events.py:148-169 | nodes come in non-decreasing link distance |
| `ExceptionWalk.ShortWalkIsComplete` | worker/frameq_worker/diagnostic_events.py:148-169 | a walk of fewer than 8 nodes is exactly the reachable set |
| `ExceptionWalk.CauseComesFirst` | worker/frameq_worker/diagnostic_events.py:148-169 | the links of an exception are visited in order: cause, context, reason of a URL error |
| `Diagnostics.FirstOfCandidates` | worker/frameq_worker/diagnostic_events.py:120-145 | the event is the classification of a candidate before which none can be classified, or unexpected when none can |
| `Diagnostics.ClassifiedAsIff` | worker/frameq_worker/diagnostic_events.py:172-226 | every code is given exactly to the exceptions of its kind, by class, name, number and status, that are of no kind looked for earlier |
| `Diagnostics.UnclassifiedIff` | worker/frameq_worker/diagnostic_events.py:172-226 | an exception gets no code exactly when it is of no kind or first of all wraps another |
| `Diagnostics.DetailsAre` | worker/frameq_worker/diagnostic_events.py:172-226 | which status and which error number go with a code |
| `Diagnostics.FileErrorsAre` | worker/frameq_worker/diagnostic_events.py:214-220 | number 28 is a full disk; a PermissionError or number 13 or 1 is a missing permission |
| `Diagnostics.FullDiskIsReported` | worker/frameq_worker/diagnostic_events.py:120-226 | a full disk is reported as such with number 28, whatever the error is linked to |
| `Diagnostics.ValidatorIsClosed` | worker/frameq_worker/diagnostic_events.py:306-356 | the validator admits exactly the dictionaries that print a legal event, and returns them unchanged |
| `DiagnosticContract.ValidatorMeetsContract` | contracts/desktop-worker-contract.json:10-156 | the validator admits exactly what the shared contract, a table of its own, admits |
| `DiagnosticContract.TablesAgree` | contracts/desktop-worker-contract.json:100-133 | the worker lists under each category exactly the contract's codes |
| `DiagnosticContract.RefusalNamesFirstUnmet` | worker/frameq_worker/diagnostic_events.py:306-352 | a refused event is refused for the first of the contract's requirements it does not meet |
| `Diagnostics.ReportedEventIsValid` | worker/frameq_worker/diagnostic_events.py:120-145 | for every graph and legal phase the reported event passes the validator unchanged |
| `Diagnostics.ReportsNearestCause` | worker/frameq_worker/diagnostic_events.py:120-169 | a classifiable exception on the walk is reported as itself or as one no further away |
| `Json.ExactEqualityIsIdentity` | worker/frameq_worker/dissection_report.py:231-232 | without booleans and floats the comparison of a stored report is identity |
| `MarkdownSplitter.LastIndexIsLast` | worker/frameq_worker/transcript_chunks.py:48-60 | a search from the right finds a mark, and none stands later |
| `MarkdownSplitter.ChunkEndsAtLastBreak` | worker/frameq_worker/transcript_chunks.py:48-60 | a chunk of a longer text ends after the last blank line in reach, failing that after the last full stop, failing both at full length; the last chunk is all that is left |
| `MarkdownSplitter.SplitTiles` | worker/frameq_worker/transcript_chunks.py:22-46 | chunks are numbered from 1, tile the bytes from 0, carry their digests and spell out the transcript |
| `Utf8.EncodedIsDecoded` | worker/frameq_worker/transcript_chunks.py:32-32 | a strict decoder reads every text back from its bytes |
| `MarkdownSplitter.ChunksAddressTheirBytes` | worker/frameq_worker/transcript_chunks.py:22-46 | the byte range of every chunk holds exactly its text in the bytes of the transcript |
| `MarkdownSplitter.DigestIsHex` | app/src/workerResultProtocol.ts:78-78 | a digest is 64 lower-case hexadecimal digits |
| `DissectionRoundTrip.TextOfNormalises` | worker/frameq_worker/dissection_report.py:555-561 | accepted text is normalised, and its normal form is accepted as itself |
| `DissectionRoundTrip.TextIsAcceptedIff` | worker/frameq_worker/dissection_report.py:555-561 | a value is accepted as a text exactly when it is a string, not all white space, at most 4000 long, and `<script` and `javascript:` stand nowhere in it in any letter case; as its trimmed form |
| `DissectionRoundTrip.SortedDistinctFixesIncreasing` | worker/frameq_worker/dissection_report.py:490-496 | a list equals its sorted distinct members exactly when it increases strictly |
| `DissectionRoundTrip.ParsedReferencesAreClean` | worker/frameq_worker/dissection_report.py:490-496 | accepted references are non-empty, strictly increasing and known chunk numbers |
| `DissectionRoundTrip.ParsedSemanticIsClean` | worker/frameq_worker/dissection_report.py:448-540 | everything a parse returns is normalised, within its limits, referenced and quoted |
| `DissectionRoundTrip.ParsedSemanticIsExact` | worker/frameq_worker/dissection_report.py:448-540 | an accepted answer holds no boolean and no float |
| `DissectionRoundTrip.CleanSemanticReparses` | worker/frameq_worker/dissection_report.py:448-540 | every clean report parses back from its printing |
| `AnswerReading.WorkerReadsExactly` | worker/frameq_worker/dissection_report.py:448-561 | an answer is accepted as a report exactly when it reads as that report's printing, texts by their normal forms, and the report meets the rules on places, references, quotations, fits and bounds |
| `StoredDissection.ParsedReportIsAccepted` | worker/frameq_worker/dissection_report.py:144-177 | a parsed report carries the splitter's provenance and a clean semantic part |
| `StoredDissection.AcceptedTextsAreSafe` | worker/frameq_worker/dissection_report.py:448-561 | no text anywhere in an accepted report is empty, longer than 4000, or holds a script tag or address |
| `StoredDissection.StoredReportReadsBack` | worker/frameq_worker/dissection_report.py:180-238 | print then parse is the identity exactly when the language is absent or not blank |
| `StoredDissection.AcceptedObjectIsCanonicalIff` | worker/frameq_worker/dissection_report.py:180-238 | an accepted stored object is the printing of its parse exactly when it holds no boolean and no float |
| `StoredDissection.OnlyChunkNumbersVary` | worker/frameq_worker/dissection_report.py:180-238 | only the source chunks can depart from the canonical form |
| `StoredDissection.BooleanTwinIsAccepted` | worker/frameq_worker/dissection_report.py:231-232 | every stored report has a different object that is read as the same report |
| `StoredDissection.SmallestReportIsAccepted` | worker/frameq_worker/dissection_report.py:144-177 | accepted reports exist for every clean transcript |
| `DesktopDissection.ReadersAgreeOnReferences` | app/src/workerResultProtocol.ts:393-401 | over chunks 1 to n the desktop's running comparison accepts exactly the non-empty lists the worker's sorted-set comparison accepts |
| `DesktopDissection.DesktopDecodesIff` | app/src/workerResultProtocol.ts:234-456 | every printed report is decoded with equal fields exactly when it is presentable, and refused whole otherwise |
| `DesktopReading.DesktopReadsExactly` | app/src/workerResultProtocol.ts:234-456 | whoever wrote it, a value is decoded to a report exactly when to JavaScript it equals that report's printing and the report is readable; null alone is no dissection |
| `DesktopDissection.ByteOrderMarkReportIsRefused` | app/src/workerResultProtocol.ts:455-457 | a report the worker accepts and the desktop refuses |
| `OnnxCache.CallOutcomes` | worker/frameq_worker/model_download.py:268-389 | how every call ends: a normal return means a valid ready cache; the staged cache in place, the old one in the newest back-up with nothing in place, or the ready cache unchanged, each under its own condition on the faults |
| `OnnxCache.CallEndsIff` | worker/frameq_worker/model_download.py:268-389 | a call dies exactly when killed at an operation it reaches, and returns exactly when the ready cache is recognised or everything up to the last event works |
| `OnnxCache.BackupsAre` | worker/frameq_worker/model_download.py:498-509 | what every call leaves among the back-ups: what the sweep left, and the displaced or undiscarded old cache |
| `OnnxCache.ValidCacheIsUntouchedIff` | worker/frameq_worker/model_download.py:338-389 | a valid ready cache leaves its place exactly when its validation misreads, everything up to the first rename works and that rename is not undone |
| `OnnxCache.NothingIsLostInOneCall` | worker/frameq_worker/model_download.py:498-509 | at every instant of a call the old cache is in place or backed up, or a valid one is in place |
| `OnnxCache.SweepDiscardsBackups` | worker/frameq_worker/model_download.py:150-166 | a sweep without failures removes every back-up |
| `OnnxCache.TwoCallsLoseIff` | worker/frameq_worker/model_download.py:268-389 | from any directory, two calls leave the old cache nowhere and no valid one in place exactly when the second sweep leaves no copy of it and it was displaced and nothing installed, or replaced and its replacement displaced |
| `OnnxCache.TwoCallsLoseTheOnlyCacheIff` | worker/frameq_worker/model_download.py:268-389 | the same from a single cache, on the faults of the two calls alone: displaced and swept, or replaced without a copy and the replacement misread and displaced |
| `OnnxCache.NeverLostIff` | worker/frameq_worker/model_download.py:268-389 | over all runs in which given calls fail to rename, a single cache is never lost exactly when none does or the run is one call |
| `OnnxCache.ValidCacheIsLost` | worker/frameq_worker/model_download.py:268-389 | two calls that lose a valid cache |
| `OnnxCache.EveryRunIsSafe` | worker/frameq_worker/model_download.py:268-389 | over any calls, failing or killed anywhere, the ready directory holds its initial content, nothing or a cache that validates |
| `OnnxCache.ValidForGoodIff` | worker/frameq_worker/model_download.py:268-389 | a valid ready cache stays in place over every run, whatever else fails, exactly when no call of the run misreads it |
| `OnnxCache.CleanCallInstalls` | worker/frameq_worker/model_download.py:268-389 | a call without failures installs the staged cache and leaves no back-up |
| `CacheLayout.CompleteCopyIsNeverLost` | worker/frameq_worker/model_download.py:106-136 | if either root was complete, one is after every single operation, for every pattern of failing operations and failing readings |
| `CacheLayout.CleanRunMigrates` | worker/frameq_worker/model_download.py:106-121 | without failures the complete copy ends in the canonical root, and a second run changes nothing |
| `CacheLayout.OneOperationAtATime` | worker/frameq_worker/model_download.py:106-121 | the layouts a migration passes through differ by one model directory at a time |
| `CacheLayout.ModelFileIsPlausibleIff` | worker/frameq_worker/model_download.py:139-147 | a model file is taken for one exactly when it starts with the four bytes of a zip archive |
| `CacheLayout.OnlyPlausibleIsMigrated` | worker/frameq_worker/model_download.py:106-121 | nothing is copied from a legacy root with an implausible file, or over a canonical root that reads as complete |
| `CacheLayout.PlaceAfterCopying` | worker/frameq_worker/model_download.py:191-208 | what each model place holds after copying, from which of mkdir, clear and copy failed |
| `CacheLayout.MigrationKeepsFilesIff` | worker/frameq_worker/model_download.py:106-147 | the legacy files survive in one root exactly unless every place passes the test, one by what a failed mkdir, clearing or copy left, the final reading works, and a removal spoils an original |
| `CacheLayout.TruncatedCopyPasses` | worker/frameq_worker/model_download.py:139-147 | a truncated copy that passes, after which the original is removed |
| `CacheLayout.CompleteCanonicalIsKeptIff` | worker/frameq_worker/model_download.py:106-147 | a complete canonical root keeps its files exactly unless its reading fails, the legacy root reads as complete and some place then holds something else |
| `CacheLayout.CanonicalIsSafeIff` | worker/frameq_worker/model_download.py:106-147 | whatever else fails, a complete canonical root is safe exactly when its reading works or no complete legacy root exists |
| `CacheLayout.MisreadCanonicalIsOverwritten` | worker/frameq_worker/model_download.py:106-147 | one failed reading replaces a complete canonical root by the legacy one |
| `ProgressThrottle.GaugeRises` | worker/frameq_worker/model_download.py:799-824 | progress and percentage never fall as bytes are added and stay in the file's share |
| `ProgressThrottle.ReadingIs` | worker/frameq_worker/model_download.py:803-809 | percentage and progress of a reading, in terms of bytes, size, start and span, capped at 99 |
| `ProgressThrottle.EmitsIff` | worker/frameq_worker/model_download.py:799-824 | over any calls, the next one passes on an event exactly when a tenth of a second or a percentage point has gone by since the last |
| `ProgressThrottle.RunIsOrdered` | worker/frameq_worker/model_download.py:799-824 | the events of any run rise in progress, percentage and time |
| `ProgressThrottle.EventsArePaidFor` | worker/frameq_worker/model_download.py:799-824 | every event is paid for by a tenth of a second or one per cent since the last |
| `ProgressThrottle.EmittedProgressIsMonotone` | worker/frameq_worker/model_download.py:787-824 | emitted progress never falls and stays between start and start plus span, capped at 99 |
| `ProgressThrottle.EmittedEventsAreBounded` | worker/frameq_worker/model_download.py:787-824 | at most 1 + 100 + elapsed/0.1 s events, however often update is called |
| `ProgressEvents.SanitisedNameIsSafe` | worker/frameq_worker/progress_events.py:353-390 | for any input and any URL splitter the sanitised name is portable and reportable, and sanitising it again changes nothing |
| `ProgressEvents.ReportableIsFixed` | worker/frameq_worker/progress_events.py:353-390 | a reportable name is left as it is |
| `SafeNames.ReportableIff` | worker/frameq_worker/progress_events.py:13-21 | a name is reportable exactly when it fits the pattern, has no equals sign and holds no sensitive word standing alone, in any letter case |
| `SafeNames.NameIsReportedIff` | worker/frameq_worker/progress_events.py:353-386 | a name other than the fallback is reported exactly when it is reportable and the last segment of the cleaned text or of the path of a plain address |
| `SafeNames.ControlsGo` | worker/frameq_worker/progress_events.py:358-358 | cleaning removes every control character and nothing else |
| `ProgressEvents.NormalisedTagIsSafe` | worker/frameq_worker/progress_events.py:318-346 | a normalised language tag is canonical, its own normal form, and accepted by both argument validators |
| `SafeNames.TagIsNormalisedIff` | worker/frameq_worker/progress_events.py:318-346 | a raw tag is normalised to a tag exactly when that is language, script and region in canonical case and the two differ in case and underscores only |
| `SafeNames.TagPatternIff` | worker/frameq_worker/progress_events.py:10-12 | what a language tag is, on both sides: two to eight letters, then dashed subtags of one to eight letters or digits |
| `ProgressEvents.ArgValidatorsDifferIff` | app/src/desktopWorkerProtocol.ts:356-405 | what the worker accepts the desktop accepts, both unchanged; the desktop accepts more exactly when some argument is a float and all would be valid with every integral float made an integer |
| `ProgressEvents.IntegralFloatIsReadByTheDesktopOnly` | app/src/desktopWorkerProtocol.ts:387-391 | an attempt sent as 1.0 is refused by the worker and read by the desktop |
| `ProgressEvents.DesktopReadsWorkerEventIff` | app/src/desktopWorkerProtocol.ts:414-454 | the desktop reads exactly the processing events the worker would build with every integral float made an integer, with the fields it received |
| `ProgressEvents.BuiltWorkerEventIsAccepted` | worker/frameq_worker/progress_events.py:190-218 | a built processing event is accepted again unchanged and read as known by the desktop with equal fields |
| `ProgressEvents.DesktopReadsModelEventIff` | app/src/desktopWorkerProtocol.ts:456-524 | the worker would build a model event, integral floats made integers, exactly when the desktop reads it and any file it names is reportable |
| `ProgressEvents.BuiltEventIsAccepted` | worker/frameq_worker/progress_events.py:221-262 | for any file name sanitiser, a built model event is accepted again unchanged and read as known by the desktop with equal fields |
| `ProgressEvents.FileEventsAreBuilt` | worker/frameq_worker/progress_events.py:221-262 | the file event of a download is built for every file name |
| `WebPageProtocol.StepKeepsInv` | app/src/webPageClient.ts:26-56 | every step keeps the flags equal to what an observer has counted |
| `WebPageProtocol.EveryRunIsOrderly` | app/src/webPageClient.ts:26-56 | for any events: at most one page request, straight after a null acknowledgement and not aborted; at most one cancel; at most one release; a finish comes last, after a sent cancel settled and the listener was released |
| `WebPageProtocol.FinishedCallCancelsIff` | app/src/webPageClient.ts:48-56 | a finished call has cancelled exactly when it was registered and never requested or aborted in flight; it returns a result exactly on a valid reply without a failed cancel |
| `WebPageProtocol.EveryStepIsAnswered` | app/src/webPageClient.ts:16-57 | in every run each event makes the call do exactly what the answers so far ask for |
| `WebPageProtocol.CallGoesOnIff` | app/src/webPageClient.ts:33-45 | the registration is sent exactly when both checks before it allowed it, the page requested exactly when the acknowledgement was null and the third check allowed it |
| `WebPageProtocol.BodyIsCancelledIff` | app/src/webPageClient.ts:23-47 | the body ends as cancelled exactly when, at a check it reached, the call was aborted or the caller refused |
| `WebPageProtocol.GoodCallReturnsResult` | app/src/webPageClient.ts:16-57 | a call in which nothing goes wrong registers and requests once, cancels nothing and returns the result |
| `WebPageProtocol.EveryRunCanFinish` | app/src/webPageClient.ts:26-56 | once everything awaited settles, the call finishes, from wherever it is |
| `ServerLifecycle.EveryRunIsOrderly` | server/src/bootstrap.ts:49-173 | under every interleaving close and disconnect run at most once, disconnect after the settled close, a failed start is reported after closing, and the one result is 0 exactly when both finished without error before the deadline |
| `ServerLifecycle.ResultIsFinal` | server/src/bootstrap.ts:86-121 | a shutdown result never changes |
| `ServerLifecycle.EveryExitIsHonest` | server/src/bootstrap.ts:123-145 | each handler set exits at most once, with the one result, and with 0 exactly when everything closed cleanly in time |
| `ServerLifecycle.SignalledHandlersExit` | server/src/bootstrap.ts:123-173 | a signalled handler set always comes to its exit by the deadline |
| `ServerLifecycle.FirstSignalShutsDown` | server/src/bootstrap.ts:123-145 | the first signal of a set installed and not removed drains the server and tells its application to close; any other signal changes nothing |
| `ServerLifecycle.EveryStepIsTold` | server/src/bootstrap.ts:40-173 | in every run each event makes the server do exactly what the events and effects before it ask for, readiness checks included |
| `ServerLifecycle.LateChecksAnswerFalse` | server/src/readiness.ts:32-42 | a check begun after draining has begun, or before the startup checks passed, never answers ready |
| `ServerLifecycle.DrainedServerNeverListens` | server/src/readiness.ts:18-21 | once draining, a server whose start is not in its checks never calls `listen` |
| `ServerLifecycle.ListensAfterShutdownIff` | server/src/bootstrap.ts:62-84 | after a shutdown `listen` can still be called exactly when the start was in its checks |
| `NoteTitle.StepTellsTheTruth` | worker/frameq_worker/note_title.py:120-160 | for every failure pattern the returned metadata is the stored one, stays coherent and keeps a text, and there is no error exactly when nothing failed |
| `NoteTitle.StepRaisesIff` | worker/frameq_worker/note_title.py:138-159 | the step raises exactly when a progress report it reaches does; the first leaves the title stored as being generated, the second leaves it complete |
| `NoteTitle.StepReportsFirstFailure` | worker/frameq_worker/note_title.py:120-160 | a returned result carries the transcript and the code of the first thing to fail |
| `NoteTitle.StepKeepsTextUntilReplaced` | worker/frameq_worker/note_title.py:120-160 | the stored text changes only to what the model generated, once saved; a failure of the model is stored as failed |
| `NoteTitle.AttemptTellsTheTruth` | app/src-tauri/src/video_processing/retry_insights.rs:450-532 | step and supervisor together: no error exactly when nothing failed, safe codes, a coherent stored title that keeps its text, and what is handed over is what is stored unless the supervisor's save failed |
| `NoteTitle.AttemptReportsTheCause` | app/src-tauri/src/video_processing/retry_insights.rs:450-532 | an attempt that does not succeed is stored and reported under its cause, cancelled or failed, with the text the step left |
| `NoteTitle.SupervisorTrustsOnlyTheStore` | app/src-tauri/src/video_processing/retry_insights.rs:450-532 | whatever the supervisor hears, it reports no error exactly for an answer without one whose completed title in the language asked for is the one stored |
| `NoteTitle.CodeIsSafeIff` | worker/frameq_worker/note_title_metadata.py:12-12 | a code is storable exactly when it is up to 64 capitals, digits and underscores, a capital first |
| `NoteTitle.StaysGeneratingIff` | app/src-tauri/src/video_processing/retry_insights.rs:493-507 | a title is still stored as being generated exactly when the step left it so and the supervisor's save failed too |
| `NoteTitle.ModelCodeIsSafe` | worker/frameq_worker/ai_runtime.py:176-182 | every code the model call can raise may be stored, and none is the cancellation code |
| `NoteTitle.SilenceCodeIsSafe` | app/src-tauri/src/video_processing/task_result.rs:42-94 | every code for a worker without an answer may be stored |
| `Workflow.EveryRunIsSound` | app/src/workflowState.ts:275-623 | in every reachable state cancelling remembers a live stage, the title is coherent, and a target being generated has no error on record |
| `Workflow.ControlsAgreeWithReducer` | app/src/taskWorkspaceViewModel.ts:169-193 | exactly one workspace offers an enabled cancel exactly when the request changes the state; processing stages are those and the cancelling ones |
| `Workflow.RestoreUndoesRequest` | app/src/workflowState.ts:435-470 | restoring returns to the stage the request came from, whatever progress arrived between |
| `Workflow.ConfirmKeepsContentIff` | app/src/workflowState.ts:472-498 | exactly when confirming a cancellation keeps the task's content |
| `Workflow.RetryCancelKeepsContentIff` | app/src/features/workflow/useTaskProcessingController.ts:545-628 | over any retry with progress, requests and restores, confirming a cancellation keeps the task's content exactly when a request is pending |
| `Workflow.RestoredCancelLosesTheTask` | app/src/features/workflow/useTaskProcessingController.ts:557-628 | a run of the program that loses a saved task |
| `Workflow.TitleTextSurvives` | app/src/workflowState.ts:370-433 | no start, finish or cancel of a title turns a text into none |
| `Workflow.FinishSettlesTheTitle` | app/src/workflowState.ts:385-419 | feeding back any attempt, raising or silent ones included, leaves no title generating, keeps it coherent, completes the task exactly when nothing failed and the languages agree, and shows what is stored unless the supervisor's save failed or a text is missing |
| `Workflow.RetryConcernsOneTarget` | app/src/workflowState.ts:565-611 | a finished retry changes its own target's error alone and ends its generation |
| `Workflow.RetriesLoseNothingIff` | app/src/features/workflow/useTaskProcessingController.ts:578-652 | over any sequence of retries, ending well, badly or cancelled, nothing the task shows but its draft is lost exactly when no retry that starts is cancelled without a request pending; otherwise all is lost |
| `Workflow.ReadyRetriesLoseNothingIff` | app/src/features/workflow/useTaskProcessingController.ts:578-652 | when every result leaves the task ready for the next retry, nothing is lost exactly when every cancelled retry ends with a request pending |
| `Workflow.DraftSurvivesIff` | app/src/features/workflow/useTaskProcessingController.ts:578-652 | a shown draft survives a retry exactly when the retry does not start, is cancelled with a request pending, or ends otherwise with a draft in its result |
| `Workflow.CancelledRetryDependsOnTheRequest` | app/src/features/workflow/useTaskProcessingController.ts:624-629 | cancelled after its request was taken back a retry loses the task; cancelled with the request pending it keeps everything, the draft included |
| `Workflow.FailedCommandClearsTheDraft` | app/src/workerClient.ts:215-238 | the result of a failed command clears the shown draft |
| `Workflow.RetryEndsIdleIff` | app/src/features/workflow/useTaskProcessingController.ts:543-652 | after a retry the task is idle exactly unless a cancel command fails after the result of a retry that was not cancelled |
| `Workflow.LateFailureStrandsTheTask` | app/src/features/workflow/useTaskProcessingController.ts:543-581 | from such a failure on neither asking to cancel nor retrying takes the task out of processing |
| `Workflow.StalenessChangesBySuccessOnly` | app/src/workflowState.ts:597-604 | staleness changes only with a dissection regenerated without an error |
| `WorkflowEvents.ProcessingForgets` | app/src/workflowState.ts:305-343 | starting to process makes tasks with one composer and transcript choice the same, whatever they showed |
| `WorkflowEvents.TitleStartsIff` | app/src/workflowState.ts:370-383 | a title starts exactly for a saved task with a transcript on file, and keeps its text |
| `WorkflowEvents.RetryStartsIff` | app/src/webPageProtocol.ts:51-53 | an idle task can be retried exactly when saved, with text that is not blank and an article or transcript on file |
| `WorkflowEvents.RetryBegins` | app/src/workflowState.ts:345-368 | a retry forgets its own target's error and no other |
| `WorkflowEvents.ProgressAndEdits` | app/src/workflowState.ts:561-563 | progress moves the stage and nothing else, an edit the draft |
| `WorkflowEvents.ControlIsShownIff` | app/src/taskWorkspaceViewModel.ts:169-193 | each cancel control is shown exactly while its own stages run or are being cancelled |
| `WorkflowEvents.RequestRemembersTheStage` | app/src/workflowState.ts:435-457 | a request is remembered with the live stage it came from, and does nothing elsewhere |
| `WorkflowEvents.ConfirmedCancellationIs` | app/src/workflowState.ts:472-498 | which confirmations keep the task, with what status, and which leave a fresh one |
| `WorkflowEvents.CancelledTitleIs` | app/src/workflowState.ts:421-433 | a cancelled title keeps text and language, and its task everything else |
| `WorkflowEvents.TitleResultConcerns` | app/src/workflowState.ts:385-419 | a title's result concerns its own task's stage, title and error alone; another language is a protocol violation |
| `WorkflowEvents.ShownTitleIs` | app/src/workflowState.ts:385-419 | which title is shown after a title's result, for every result |
| `WorkflowEvents.SettlementIsDelivered` | app/src-tauri/src/video_processing/retry_insights.rs:500-532 | what was settled reaches the desktop as this task's result, with its error |
| `WorkflowEvents.SummaryShowsResult` | app/src/workflowState.ts:528-559 | a result is shown as it is, partly completed while its title is unfinished, its failure on the failed target |
| `WorkflowEvents.RetryResultConcerns` | app/src/workflowState.ts:565-611 | what a retry's result decides and what it leaves to the state before |
| `WorkflowEvents.DissectionIsReplacedIff` | app/src/workflowState.ts:565-611 | the old report stays exactly after a failed dissection without one |
| `WorkflowEvents.SeedAndEditSurviveIff` | app/src/workflowState.ts:565-611 | only new insights drop the chosen seed, only a new draft is unedited |
| `WorkflowEvents.ResultWins` | app/src/features/workflow/useTaskProcessingController.ts:630-649 | a retry shows what its result has, and what was shown only where it has nothing |
| `PreferenceWizard.MultiIsAcceptedIff` | app/src/insightPreferences.ts:320-338 | a list is accepted, unchanged, exactly when it is within bounds, distinct and known |
| `PreferenceWizard.ValidatorAcceptsIff` | app/src/insightPreferences.ts:247-278 | preferences are accepted, unchanged, exactly when complete |
| `PreferenceWizard.ToggleKeeps` | app/src/insightPreferenceFlow.ts:244-259 | toggling keeps a selection within bounds, distinct and known, and empties it only of its last member |
| `PreferenceWizard.SelectionIsSoundIff` | app/src/insightPreferenceFlow.ts:156-180 | a selection keeps the wizard sound exactly when it does not take a passed step's last angle or style |
| `PreferenceWizard.RunKeepsInv` | app/src/insightPreferenceFlow.ts:83-226 | any such run keeps step and index together, lists valid and passed steps satisfied |
| `PreferenceWizard.OfferedHasNoBlank` | app/src/insightPreferences.ts:129-154 | no option in use is the empty string, so the theorems apply to the option table in use |
| `PreferenceWizard.ConfirmationIsValid` | app/src/insightPreferenceFlow.ts:48-226 | whenever the confirmation shows, the validator returns the preferences unchanged |
| `PreferenceWizard.CurrentStepNeverDrops` | app/src/insightPreferenceFlow.ts:156-201 | selecting for the step on screen is always within the discipline |
| `PreferenceWizard.OnScreenConfirmationIsValid` | app/src/insightPreferenceFlow.ts:48-226 | after any run that chooses only for the step on screen, the confirmation's preferences are accepted unchanged |
| `PreferenceWizard.ConfirmedSelectionIsValidIff` | app/src/insightPreferenceFlow.ts:156-180 | on the confirmation a selection leaves acceptable preferences exactly when it drops no last choice |
| `PreferenceWizard.DroppedAngleIsRefused` | app/src/insightPreferenceFlow.ts:142-180 | a caller that selects off the step on screen ends in a confirmation the validator refuses |
| `WizardRuns.EveryChoiceCanBeMade` | app/src/insightPreferenceFlow.ts:48-226 | all preferences the validator accepts can be reached: choosing them step by step ends in their confirmation |
| `WizardRuns.StepMayBeLeftIff` | app/src/insightPreferenceFlow.ts:228-242 | a step may be left exactly when the validator accepts what is chosen for it |
| `WizardRuns.BoundsAgree` | app/src/insightPreferenceFlow.ts:228-259 | the wizard's own table of bounds is the validator's |
| `WizardRuns.OpensOn` | app/src/insightPreferenceFlow.ts:48-77 | which screen the wizard opens on, for every stored state |
| `WizardRuns.NextMovesIff` | app/src/insightPreferenceFlow.ts:182-201 | going on moves exactly from a step that may be left, to the next step or the confirmation |
| `WizardRuns.BackUndoesNext` | app/src/insightPreferenceFlow.ts:182-216 | going back undoes going on, short of the confirmation |
| `WizardRuns.PreviousMovesIff` | app/src/insightPreferenceFlow.ts:203-216 | going back moves exactly from a step that is not the first |
| `WizardRuns.EntriesAre` | app/src/insightPreferenceFlow.ts:83-154 | where editing, skipping the profile, the defaults and the profile form lead, and what they change |
| `WizardRuns.CancelledProfileLeadsTo` | app/src/insightPreferenceFlow.ts:106-129 | leaving the profile leads back to it while required, then to the defaults, else closes the wizard |
| `RequestIds.TargetSeedIsStripped` | worker/frameq_worker/ai_runtime.py:95-100 | a target's seed is the cut seed, a dash and the target, and stripping it changes nothing |
| `RequestIds.TargetSeedIs` | worker/frameq_worker/ai_runtime.py:95-100 | a blank seed is used as it is, any other is stripped, cut to 140 characters and tagged |
| `RequestIds.TakeCuts` | worker/frameq_worker/llm.py:31-36 | a slice of a bound keeps so many characters, or drops so many at the end |
| `RequestIds.FirstCallIsOne` | worker/frameq_worker/ai_runtime.py:122-129 | the first call of a target has number one |
| `RequestIds.SentIdIs` | worker/frameq_worker/llm.py:31-36 | the identifier sent is what the cut keeps and the numbered suffix, at most 160 characters |
| `RequestIds.PaddedIsInjective` | worker/frameq_worker/llm.py:31-36 | padded call numbers differ for different calls |
| `RequestIds.IdsAgreeIff` | worker/frameq_worker/llm.py:31-36 | two identifiers of one seed agree exactly for the same call of the same target, or when the number pushes the target's name out |
| `RequestIds.IdsAreDistinct` | worker/frameq_worker/llm.py:31-36 | for call numbers below 10^12 distinct target and number pairs have distinct identifiers |
| `RequestIds.LongNumbersCollide` | worker/frameq_worker/llm.py:31-36 | the bound is exact: thirteen digits can collide |
| `RequestIds.EveryCallHasItsOwnId` | worker/frameq_worker/ai_runtime.py:103-129 | no two calls of a task, over any targets in any order, share an identifier |
| `Text.SpacesAre` | worker/frameq_worker/dissection_report.py:555-561 | by code point, what both Python and JavaScript trim and what only one of them does |
| `Text.TrimResult` | worker/frameq_worker/dissection_report.py:555-561 | trimming keeps a piece with no white space at its ends, empty exactly when all was white space |
| `Text.TrimmedIsFixed` | worker/frameq_worker/dissection_report.py:555-561 | trimming trimmed text changes nothing, so trimming is idempotent |
| `ResumableDownload.DownloadTarget.CopyChunks` | worker/frameq_worker/download_reliability.py:84-107 | the chunk loop writes what the stream function says, counts its bytes, and stops on a stall, an excess or a failed read or write |
| `ResumableDownload.DownloadTarget.WriteGuarded` | worker/frameq_worker/download_reliability.py:73-118 | opening, copying, closing, checking the size and renaming leave the files and the outcome the specification gives |
| `ResumableDownload.DownloadTarget.WriteStream` | worker/frameq_worker/download_reliability.py:53-124 | one attempt with its keep-or-delete handler equals the specified attempt on every path |
| `ExceptionWalk.WalkExceptionChain` | worker/frameq_worker/diagnostic_events.py:148-169 | the queue-and-set loop computes the walk, and terminates on every graph |
| `Diagnostics.ClassifyModelDownloadException` | worker/frameq_worker/diagnostic_events.py:120-145 | the loop returns the classification of the first classifiable node, or the unexpected failure of the root |
| `MarkdownSplitter.SplitMarkdown` | worker/frameq_worker/transcript_chunks.py:22-46 | the splitting loop computes the split |
| `DissectionReport.ParseItems` | worker/frameq_worker/dissection_report.py:480-528 | the parser's loops stop at the first failure and otherwise collect every parsed element in order |
| `DissectionReport.ParseSegments` | worker/frameq_worker/dissection_report.py:476-509 | segments are a non-empty array, each checked against its position from 1 |
| `DissectionReport.ParseAudienceFit` | worker/frameq_worker/dissection_report.py:516-528 | audience fits are parsed element by element |
| `DissectionReport.ParseSemanticReport` | worker/frameq_worker/dissection_report.py:448-540 | the parser meets its specification, failures in the source's order |
| `DesktopDissection.DecodeSourceChunks` | app/src/workerResultProtocol.ts:286-309 | the running `previousEnd` loop computes the chunk decoder |
| `DesktopDissection.DecodeSourceChunkIds` | app/src/workerResultProtocol.ts:393-401 | the running `previousId` loop computes the reference decoder |
| `OnnxCache.ModelCache.RemoveStale` | worker/frameq_worker/model_download.py:150-166 | the sweep leaves exactly the back-ups it fails to remove, or where it was killed |
| `OnnxCache.ModelCache.Promote` | worker/frameq_worker/model_download.py:498-509 | the renames, the roll-back and the discard equal the specification under every failure |
| `OnnxCache.ModelCache.DownloadOnnxModelCache` | worker/frameq_worker/model_download.py:268-389 | one call equals the specified call on every path, with validations that answer, misread, raise or are killed |
| `CacheLayout.CacheRoots.CopyKnownModelDirs` | worker/frameq_worker/model_download.py:191-208 | the copying loop equals its specification for every swallowed failure |
| `CacheLayout.CacheRoots.RemoveKnownLegacyDirs` | worker/frameq_worker/model_download.py:211-223 | the removal loop equals its specification |
| `CacheLayout.CacheRoots.NormalizeLayout` | worker/frameq_worker/model_download.py:106-121 | the migration equals its specification |
| `ProgressThrottle.ProgressCallback.OnUpdate` | worker/frameq_worker/model_download.py:799-824 | one update changes the counters and passes on the event the specification gives |
| `ProgressEvents.ValidateMessageArgs` | worker/frameq_worker/progress_events.py:144-187 | the worker's loop over the allowed keys computes the argument check |
| `WebPageProtocol.WebPageCall.OnStart` | app/src/webPageClient.ts:23-33 | the entry checks, as the specified step |
| `WebPageProtocol.WebPageCall.OnListenSettled` | app/src/webPageClient.ts:33-39 | the code between acquiring the listener and registering, as the specified step |
| `WebPageProtocol.WebPageCall.OnBeginSettled` | app/src/webPageClient.ts:39-45 | the code between registering and requesting the page, as the specified step |
| `WebPageProtocol.WebPageCall.OnProcessSettled` | app/src/webPageClient.ts:45-51 | the reply, and entering the finally block |
| `WebPageProtocol.WebPageCall.OnAbort` | app/src/webPageClient.ts:29-31 | an abort, which cancels once and only while the hook is in place |
| `WebPageProtocol.WebPageCall.OnCancelSettled` | app/src/webPageClient.ts:29-31 | a sent cancellation settles, well or badly |
| `WebPageProtocol.WebPageCall.OnFinallyResumed` | app/src/webPageClient.ts:48-56 | the end of the finally block: release, then the outcome |
| `ServerLifecycle.ReadinessController.BeginShutdown` | server/src/readiness.ts:28-30 | only the draining flag changes |
| `ServerLifecycle.Lifecycle.OnStartCalled` | server/src/bootstrap.ts:62-84 | a start is memoised, and fails at once when draining |
| `ServerLifecycle.Lifecycle.OnVerifySettled` | server/src/readiness.ts:18-26 | the schema check settles, as the specified step |
| `ServerLifecycle.Lifecycle.OnPingSettled` | server/src/readiness.ts:18-26 | the ping settles; then `listen` is called |
| `ServerLifecycle.Lifecycle.OnListenSettled` | server/src/bootstrap.ts:65-80 | `listen` settles: the start succeeds, or fails and closes |
| `ServerLifecycle.Lifecycle.OnStartResumed` | server/src/bootstrap.ts:69-80 | a failed start is reported once everything is closed |
| `ServerLifecycle.Lifecycle.OnShutdownCalled` | server/src/bootstrap.ts:86-121 | the first shutdown drains and closes, later ones change nothing |
| `ServerLifecycle.Lifecycle.OnAppCloseSettled` | server/src/bootstrap.ts:49-60 | the database is disconnected once the application's close has settled, well or badly |
| `ServerLifecycle.Lifecycle.OnDisconnectSettled` | server/src/bootstrap.ts:150-173 | the end of closing settles a racing shutdown |
| `ServerLifecycle.Lifecycle.OnDeadline` | server/src/bootstrap.ts:150-173 | the deadline settles a racing shutdown as timed out |
| `ServerLifecycle.Lifecycle.OnSignal` | server/src/bootstrap.ts:123-145 | the first signal of an installed set shuts down, later ones do nothing |
| `ServerLifecycle.Lifecycle.InstallSignalHandlers` | server/src/bootstrap.ts:123-140 | a new set of handlers is installed, armed |
| `ServerLifecycle.Lifecycle.RemoveSignalHandlers` | server/src/bootstrap.ts:141-144 | a removed set reacts to no further signal |
| `ServerLifecycle.Lifecycle.OnShutdownResult` | server/src/bootstrap.ts:130-136 | a signalled set exits with the shutdown's code |
| `ServerLifecycle.Lifecycle.OnCheckSettled` | server/src/readiness.ts:36-41 | a pending check answers as its ping did |
| `ServerLifecycle.Lifecycle.OnCheckBegun` | server/src/readiness.ts:32-42 | a readiness check is answered at once when the server cannot be ready |
| `NoteTitle.TitleStore.Save` | worker/frameq_worker/task_store.py:374-389 | a save replaces the stored title or leaves it |
| `NoteTitle.RunNoteTitleStep` | worker/frameq_worker/note_title.py:120-160 | the step equals its specification, progress reports that raise included, and a returned result carries what the store holds |
| `RequestIds.ManagedProvider.NextRequestId` | worker/frameq_worker/ai_runtime.py:122-129 | each call counts one up and uses the identifier of that count |

## Left out

- Non-ASCII decimal digits, which Python's `\d` and `int` accept in headers, and Python's limit on very long integer literals.
- The non-streaming `write_http_response_atomically`, which reads the whole body first.
- Exception objects whose class or attributes run code of their own when inspected; a read that raises is a missing attribute here.
- The markdown rendering of a report, and the heading summaries of chunks.
- JSON text, hashing and Unicode categories: JSON is a datatype, the digest and the rule for title texts are parameters, and case folding is ASCII.
- JavaScript property descriptors and prototypes in the IPC readers, and unknown message codes.
- The contents checks of `_validate_onnx_model_cache`, a predicate here whose reading may fail, and the refusal of unsupported download options; the PyTorch archive path; removing empty vendor and temporary directories.
- Progress of several files interleaved, and rounding: clocks and percentages are real numbers.
- Event loops below one step: in the web page call and the server lifecycle everything the code does between two waits is one step, and a clock is an event that may come at any time.
- Status messages, progress texts and percentages of the workflow, the label snapshot of preferences, and the profile form.
- The controller hooks around the workflow reducers, beyond a retry's guard on the task, the order of its events, its late cancel answers, its confirmed cancellation and the filling-in of its result. Account, download and submission guards, and edits saved while a retry runs, are not in that; the reducers are proved for every order of events.
- A worker's answer that names another task, which the supervisor takes for a protocol violation: the step modelled here always answers for its own.
- Opening a task at the start of a title attempt, and the supervisor's own reading back, which report an error before any title is touched or after it is settled.
- A call of the wizard that closes it leaves the model's wizard as it was; nothing follows it in the source.
- A request identifier's provider is made once per target here, as in one worker process.
- Server-side stores, billing and activation: they delegate to operations outside the files modelled.

# Das Küchenhaus back office and transition gates: a verified model

The project models the parts of the repository whose correctness depends on more than one function or on a whole
history of calls, and proves what they guarantee.

- **Supplier confirmations** (`Matching`, `MatchingProperties`, `MatchingMeaning`, `Decisions`, `DecisionRuns`). A
  confirmation is matched against its order through a last-wins dictionary on normalised article codes. Users then
  decide the exceptions one by one, with an audit log. Counts, status and severities get closed forms that do not
  mention the loop; approval and the log are characterised after every run of confirmations, matchings and decisions.
- **Mail import** (`MailImport`, `MailImportRuns`, `MailImportBatches`, `MailImportCrashes`). The IMAP importer is a
  resumable, batched, deduplicating cursor. Histories interleave arrivals, expunges, renumberings and complete, limited,
  dry or crashing runs. UIDs follow section 2.3.1.1 of RFC 3501, and the answer to `n:*` follows section 6.4.8.
- **PDF writer** (`Decimals`, `PdfText`, `PdfDocument`, `PdfPages`). The writer is read back by a reader written from
  sections 7.3.4.2, 7.5.4, 7.5.5, 7.7.2 and 7.7.3 of ISO 32000-1: `startxref`, cross-reference table, trailer,
  catalogue, page tree, stream length, content operators, literal strings.
- **Transition gates** (`Scanner`, `ScannerMeaning`, `Evidence`, `EvidenceMeaning`, `Traces`, over `Dict`). The signal
  scanner, the evidence checker, the golden-trace evaluation and the shadow metrics.
- **Security checks** (`Ruleset`, `ActionPins`). Two pairs of independent checkers and what ties them together.
- **CARAT project files** (`CaratBlocks`, `CaratMeaning`) and **e-mail assignment** (`EmailAssignment`).

Loops of the source are methods with loops, proved equal to a specification function; the theorems are about that
function. What such a function computes is stated once more in elementary terms, without naming it or its parts: for
every input, which record is in the result and what it says (`UpdateMeans`, `ExceptionsMean`, `DecisionRecords`,
`PageShows`, `ScanMeans`, `AcceptedMeans`, `ReviewMeans`, `PositionsMean`). Rows of database tables are fields of
classes. A data-modifying SQL statement is one atomic step whose parts all see the state before it (section 7.8.4 of
the PostgreSQL documentation), and a run is a sequence of steps.

## What the code does not guarantee

Where a natural property fails, the model keeps the code as it is, shows a concrete input, and gives the exact
condition.

- **A decision on a foreign exception approves.** If the named exception belongs to another confirmation, line 5996
  of the admin API compares with NULL, counts no open exception and approves the confirmation; the error is raised
  afterwards (`ForeignExceptionApproves`, `DecideKeepsApprovalSafe`).
- **A fully matched confirmation has nothing to decide, and is approved all the same** as soon as any valid, visible
  decision names it, whatever exception that decision names (`FullyMatchedApproval`, `FullyMatchedApprovalExample`).
- **"Approved" does not mean settled**: exceptions that wait for the supplier or were rejected may remain
  (`ApprovedWhileWaiting`). `DecideKeepsSettled` and `RunsSettleExactly` say exactly when an approved confirmation is
  settled.
- **A decision before the matching approves**: a confirmation is inserted by one statement and matched by the next; a
  decision between the two sets the approval time, and the exceptions are opened afterwards (`EarlyDecisionApproves`;
  such a decision strays in the sense of `RunsApproveSafely`).
- **A line confirmed twice is not noticed** by the matching (`DoubledLineExample`, `MatchedLineCount`).
- **A red position may be shown as a warning**: a later yellow check overwrites the match status but not the severity
  (`RedWithoutReview`, `RedWithoutReviewExample`).
- **A change of UIDVALIDITY can lose mail**, present and future: the search restarts at 1, but the watermark starts from
  the old value (`EpochChangeCanLose`, `ArrivalCanBeLost`, `EpochChangeExact`).
- **A retry after a crash need not give what one clean run gives**: a fetch that failed before the crash can leave a
  Message-ID to another message (`CrashRetryCanDiffer`, `CrashRetryExact`).
- **Unknown destructive intent does not block an escalation.** `docs/policies/intent-transition-gates.md:95-105`
  lists it among the values that must block; the checker's blocking set leaves it out. The model follows the code
  (`PolicyGap`, `PolicyGapExample`).
- **Drift and validation differ on numeric switches**: drift compares with `==`, validation with `is`
  (`DriftFreeTransfers`, `NumericSwitchExample`). A wrong name, target or branch is drift of medium severity only
  (`FailureShows`, `QuietDriftTransfers`).
- **An assigned e-mail need not be linked to a case** (`AssignedWithoutLinkExample`,
  `StepKeepsAssignedLinked`, `RunsLinkExactly`).
- **A carriage return in a PDF text is read back as a line feed** (`CarriageReturnExample`, `EscapeRoundTrip`,
  `ShownExactly`).

## Model

| member | source | states |
|---|---|---|
| `Matching.RecomputeMatching` | scripts/hetzner/daskuechenhaus_admin_api.py:5317-5540 | The imperative matcher returns the specified updates, exceptions, counts, rate and status, for all position lists; `UpdateMeans`, `ExceptionsMean` and `SummaryMeans` say what these are |
| `Matching.MatchConfirmed` | scripts/hetzner/daskuechenhaus_admin_api.py:5334-5493 | The loop over confirmed positions yields exactly the matched ids, exceptions and updates of the specification |
| `Matching.ComparePosition` | scripts/hetzner/daskuechenhaus_admin_api.py:5338-5484 | However severity and status are overwritten on the way, the severity ends as the worst of the position's exceptions and the status follows the one appended last |
| `Matching.IndexByArticle` | scripts/hetzner/daskuechenhaus_admin_api.py:5325-5329 | The dictionary holds exactly the non-empty codes, and under each the position after which no other has that code |
| `Matching.FindMissing` | scripts/hetzner/daskuechenhaus_admin_api.py:5495-5507 | One missing-position exception, in order, for exactly the order positions not matched |
| `MatchingProperties.MatchedCountClosedForm` | scripts/hetzner/daskuechenhaus_admin_api.py:5325-5509 | The matched count is the number of distinct non-empty codes occurring on both sides |
| `MatchingProperties.CountsAgree` | scripts/hetzner/daskuechenhaus_admin_api.py:5509-5520 | Matched plus missing-position exceptions is the number ordered, so the clipping never acts; unmatched confirmed positions are the extra-position exceptions; the rate lies in [0, 1] |
| `MatchingProperties.MatchedMeans` | scripts/hetzner/daskuechenhaus_admin_api.py:5325-5337 | An order position counts as matched if and only if its code is non-empty, confirmed, and looks up this very position |
| `MatchingProperties.MatchedStatusMeans` | scripts/hetzner/daskuechenhaus_admin_api.py:5521-5527 | "matched" if and only if no exception was emitted, if and only if codes are non-empty and distinct, all are covered and every line agrees with its order |
| `MatchingProperties.MatchedLineCount` | scripts/hetzner/daskuechenhaus_admin_api.py:5325-5527 | A "matched" confirmation has as many lines as the order if and only if it confirms no code twice |
| `MatchingProperties.DoubledLineExample` | scripts/hetzner/daskuechenhaus_admin_api.py:5325-5527 | One ordered line confirmed twice is reported as "matched" |
| `MatchingProperties.ReportOrderIndependent` | scripts/hetzner/daskuechenhaus_admin_api.py:5325-5527 | Status, counts and rate do not change when either list is permuted |
| `MatchingProperties.ExceptionsPermuteConfirmed` | scripts/hetzner/daskuechenhaus_admin_api.py:5334-5507 | Permuting the confirmed positions leaves the multiset of exceptions unchanged |
| `MatchingProperties.SeverityMeans` | scripts/hetzner/daskuechenhaus_admin_api.py:5339-5484 | Green if and only if there is no exception, red if and only if one is red, "matched" if and only if there is none |
| `MatchingProperties.RedWithoutReview` | scripts/hetzner/daskuechenhaus_admin_api.py:5377-5483 | The exact field combinations under which a red position escapes manual review |
| `MatchingProperties.RedWithoutReviewExample` | scripts/hetzner/daskuechenhaus_admin_api.py:5395-5399 | A position with an unreadable quantity and a changed price is red but only a warning |
| `MatchingMeaning.UpdateMeans` | scripts/hetzner/daskuechenhaus_admin_api.py:5325-5493 | For any two lists: every confirmed position gets one update, in order; it names the last order position with its non-empty code, green and "matched" if and only if the two agree, and without such a position it is red, unmatched, for manual review |
| `MatchingMeaning.ExceptionsMean` | scripts/hetzner/daskuechenhaus_admin_api.py:5334-5507 | An exception is reported if and only if it says that a confirmed position has no partner, that partners differ in quantity, price or delivery in one of the listed ways (severity, values and delta included), or that an order position is nobody's partner |
| `MatchingMeaning.SummaryMeans` | scripts/hetzner/daskuechenhaus_admin_api.py:5509-5527 | The rate is the number of common codes over the number of order positions; the context is wrong if and only if there are order positions and none of their codes is confirmed |
| `MatchingMeaning.LastLineIsMatched` | scripts/hetzner/daskuechenhaus_admin_api.py:5325-5337 | Of two ordered lines with one code, a confirmation that agrees with the second is matched with it, without any exception of its own |
| `MatchingMeaning.EarlierLineIsMissing` | scripts/hetzner/daskuechenhaus_admin_api.py:5495-5507 | In that example the only exception is that the first line is missing |
| `MatchingMeaning.CodeConcat` | scripts/hetzner/daskuechenhaus_admin_api.py:488-489 | Normalisation works character by character |
| `Decisions.Tables.Decide` | scripts/hetzner/daskuechenhaus_admin_api.py:5890-6041 | New state of all three tables after a decision, including the rejected ones, and when it succeeds; `DecisionRecords` and `OtherwiseNothing` say what each text leaves in the tables |
| `Decisions.DecisionRecords` | scripts/hetzner/daskuechenhaus_admin_api.py:5899-5990 | A visible decision on an exception of its confirmation leaves it accepted for "accept" or no text, resolved for "resolve", rejected for "reject", waiting for each of the five requests, with user, time and action; one log row has both statuses; all other exceptions and rows stay |
| `Decisions.OtherwiseNothing` | scripts/hetzner/daskuechenhaus_admin_api.py:5899-5909 | A decision with any other text, or on a confirmation the user cannot see, changes nothing |
| `DecisionRuns.LogReplays` | scripts/hetzner/daskuechenhaus_admin_api.py:5946-5990 | After every run the logged decisions of each exception form a chain from "open", and replaying it gives the current status |
| `Decisions.DecideKeepsApprovalSafe` | scripts/hetzner/daskuechenhaus_admin_api.py:5991-6020 | A decision keeps "approved means nothing open" if and only if it changes nothing, names an exception of its confirmation, or nothing was open |
| `Decisions.ForeignExceptionApproves` | scripts/hetzner/daskuechenhaus_admin_api.py:5991-6020 | Concrete decision on a foreign exception that approves a confirmation with an open exception and logs nothing |
| `DecisionRuns.RunsApproveExactly` | scripts/hetzner/daskuechenhaus_admin_api.py:5991-6020 | After every run, whatever the decisions name: the approval time is set if and only if a decision named no exception of the confirmation, or there were exceptions and none is open; unless a decision strayed like that, the status is approved if and only if the time is set and the newest decision did not ask the supplier |
| `DecisionRuns.RunsApproveSafely` | scripts/hetzner/daskuechenhaus_admin_api.py:5991-6020 | After every run, approval is safe if and only if no confirmation with an exception still open ever received a valid, visible decision that named none of its exceptions |
| `Decisions.ApprovedWhileWaiting` | scripts/hetzner/daskuechenhaus_admin_api.py:6001-6007 | With two exceptions open, a question about one and the rejection of the other approve the confirmation while the first still waits |
| `Decisions.DecideKeepsSettled` | scripts/hetzner/daskuechenhaus_admin_api.py:5991-6007 | A decision keeps "approved means every exception accepted or resolved" if and only if it does not approve, or all other exceptions are settled and its own outcome is acceptance or resolution |
| `DecisionRuns.RunsSettleExactly` | scripts/hetzner/daskuechenhaus_admin_api.py:5953-6007 | After every run without a stray decision on it, a confirmation is approved and settled if and only if it has exceptions and each was accepted or resolved |
| `DecisionRuns.RunsStatusExactly` | scripts/hetzner/daskuechenhaus_admin_api.py:5991-6007 | After every run, stray decisions included, the status is that of the newest creation, matching, or decision that asks the supplier, strays or leaves nothing open |
| `DecisionRuns.EarlyDecisionApproves` | scripts/hetzner/daskuechenhaus_admin_api.py:5716-5782 | A decision between the two statements of a creation sets the approval time before the exceptions are opened |
| `Decisions.OpenAfterDecide` | scripts/hetzner/daskuechenhaus_admin_api.py:5953-5963 | A decision never opens an exception; a proper one closes exactly the exception it names |
| `DecisionRuns.LastClosingStamps` | scripts/hetzner/daskuechenhaus_admin_api.py:6008-6016 | Whichever decision closes the last open exception of a confirmation sets the approval to its own time and user; without a stray decision it was not set before |
| `DecisionRuns.FullyMatchedApproval` | scripts/hetzner/daskuechenhaus_admin_api.py:5991-6032 | After every later run, a confirmation reported as matched has an approval time if and only if it had one before or some valid, visible decision named it; without such a decision its row is as the matching left it |
| `DecisionRuns.FullyMatchedApprovalExample` | scripts/hetzner/daskuechenhaus_admin_api.py:5991-6032 | A concrete request, with any exception id, that approves a matched confirmation and logs nothing |
| `MailImport.SelectUids` | scripts/hetzner/daskuechenhaus_mail_importer.py:534-548 | For any server answer, the selected UIDs are the first pending UIDs of the mailbox, ascending |
| `MailImport.SearchIsExact` | scripts/hetzner/daskuechenhaus_mail_importer.py:359-368 | Whatever a server may answer to `n:*`, the result is exactly the present UIDs from n on, ascending |
| `MailImport.Database.InsertMessage` | scripts/hetzner/daskuechenhaus_mail_importer.py:402-421 | Appends the row unless its (account, external id) pair exists; says whether it did |
| `MailImport.Database.ImportUids` | scripts/hetzner/daskuechenhaus_mail_importer.py:549-565 | Watermark, count and message table after the loop, or after the part of it before a crash |
| `MailImport.Database.ImportAccount` | scripts/hetzner/daskuechenhaus_mail_importer.py:526-571 | New account row and message table for complete, limited, dry and crashing runs |
| `MailImportRuns.HistoryKeepsInv` | scripts/hetzner/daskuechenhaus_mail_importer.py:526-571 | Under every interleaving within an epoch: every present UID at or below the watermark has its external id stored or was logged as unfetchable, the watermark never falls, rows are only appended, no key is stored twice |
| `MailImportRuns.HistoryKeepsWellFormed` | scripts/hetzner/daskuechenhaus_mail_importer.py:526-571 | Across any number of UIDVALIDITY changes: rows are only appended, no key is stored twice, the watermark never falls |
| `MailImportRuns.OwnRowIsStored` | scripts/hetzner/daskuechenhaus_mail_importer.py:417-420 | A fetched message gets a row with its own UID and content if and only if that row is there already, or no earlier row and no smaller UID of the batch has its external id |
| `MailImportRuns.RunStoresOwnRow` | scripts/hetzner/daskuechenhaus_mail_importer.py:550-567 | The same for a completed run on any mailbox |
| `MailImportRuns.CompletedRunRecords` | scripts/hetzner/daskuechenhaus_mail_importer.py:549-567 | A run that completes records the UIDVALIDITY, clears the error, and its watermark is the larger of the old one and the highest UID of its batch |
| `MailImportRuns.CollapseMeans` | scripts/hetzner/daskuechenhaus_mail_importer.py:125-126 | White space around the words of a Message-ID disappears and between them becomes one blank, whatever the words are |
| `MailImportRuns.ExternalIdMeans` | scripts/hetzner/daskuechenhaus_mail_importer.py:215-223 | The external id is the collapsed Message-ID if that is not blank, and the synthetic id otherwise |
| `MailImportRuns.NewRowsFaithful` | scripts/hetzner/daskuechenhaus_mail_importer.py:550-565 | Every appended row holds the mail of its own UID under that mail's external id |
| `MailImportRuns.BatchIsClosed` | scripts/hetzner/daskuechenhaus_mail_importer.py:546-548 | A limited batch skips no pending UID below one of its own |
| `MailImportBatches.DrainCount` | scripts/hetzner/daskuechenhaus_mail_importer.py:546-567 | On a mailbox at rest, nothing is pending after n runs with the same limit if and only if n is at least ceil(pending / limit) |
| `MailImportBatches.BatchingIsInvisible` | scripts/hetzner/daskuechenhaus_mail_importer.py:546-567 | However the mailbox was drained, with any limits and each run with its own failing fetches, message table and account row are those of one unlimited run with the fetches that failed when tried |
| `MailImportCrashes.CrashRetryExact` | scripts/hetzner/daskuechenhaus_mail_importer.py:550-567 | After any crashed runs, each with its own limit, failing fetches and crash point, the retry gives the account row of one clean run always, and its rows if and only if every message a crashed run was the first to take is fetched by the retry and not shadowed there |
| `MailImportCrashes.CrashRetryKeys` | scripts/hetzner/daskuechenhaus_mail_importer.py:417-420 | Every external id of the clean run is stored; an additional one is stored if and only if it is new, a crashed run took it and the retry does not |
| `MailImportCrashes.CrashRetryIsClean` | scripts/hetzner/daskuechenhaus_mail_importer.py:550-567 | If the crashed runs had the limit and failing fetches of the retry, the result is that of one clean run, row order included |
| `MailImportCrashes.CrashRetryCanDiffer` | scripts/hetzner/daskuechenhaus_mail_importer.py:552-563 | Concrete mailbox with a shared Message-ID where the retry keeps another message than a clean run |
| `MailImportCrashes.RowAfterCrashes` | scripts/hetzner/daskuechenhaus_mail_importer.py:550-565 | After crashed runs, exactly the rows of the messages some run was the first to take were added |
| `MailImportRuns.EpochChangeNoLoss` | scripts/hetzner/daskuechenhaus_mail_importer.py:534-549 | After the first completed run of a new UIDVALIDITY, nothing present is lost if and only if every message left out of the batch at or below the old watermark has its external id stored before or by the batch |
| `MailImportRuns.EpochChangeExact` | scripts/hetzner/daskuechenhaus_mail_importer.py:534-567 | After that run, no history of the epoch ever loses a message if and only if the run left nothing out and the old watermark lies below the next UID |
| `MailImportRuns.LostArrival` | scripts/hetzner/daskuechenhaus_mail_importer.py:534-549 | Whenever the old watermark is at or above the next UID, some message arriving next is lost |
| `MailImportRuns.EpochChangeCanLose` | scripts/hetzner/daskuechenhaus_mail_importer.py:541-549 | Concrete limited run after which a message is neither stored nor pending, and no later history of the epoch stores its UID |
| `MailImportRuns.ArrivalCanBeLost` | scripts/hetzner/daskuechenhaus_mail_importer.py:541-549 | Concrete unlimited run that loses nothing, after which the next message to arrive is never stored |
| `MailImportRuns.NewRowsAboveWatermark` | scripts/hetzner/daskuechenhaus_mail_importer.py:534-567 | Within an epoch, every row a later history adds has a UID above the watermark |
| `MailImportRuns.SyntheticIdInjective` | scripts/hetzner/daskuechenhaus_mail_importer.py:215-223 | Two messages without a Message-ID get the same external id only if account, UIDVALIDITY and UID agree |
| `PdfText.EscapeIsOnePass` | scripts/hetzner/daskuechenhaus_admin_api.py:3429-3431 | The three sequential replacements equal one pass over the characters |
| `PdfText.LiteralRoundTrip` | scripts/hetzner/daskuechenhaus_admin_api.py:3429-3440 | The literal-string lexer stops exactly at the final parenthesis, whatever follows, and returns the text with normalised line ends |
| `PdfText.EscapeRoundTrip` | scripts/hetzner/daskuechenhaus_admin_api.py:3429-3431 | The lexer returns the original text if and only if the text holds no carriage return |
| `PdfText.CarriageReturnExample` | scripts/hetzner/daskuechenhaus_admin_api.py:3429-3431 | A concrete text whose carriage return is read back as a line feed |
| `PdfDocument.SimplePdf` | scripts/hetzner/daskuechenhaus_admin_api.py:3434-3478 | The written bytes are the specified document, for every title and list of lines; `PageShows` says what its page shows |
| `PdfDocument.WriteDocument` | scripts/hetzner/daskuechenhaus_admin_api.py:3459-3478 | Buffer positions taken while writing are the true offsets of the finished file |
| `PdfDocument.StartXrefIsRight` | scripts/hetzner/daskuechenhaus_admin_api.py:3467-3477 | `startxref` parses to the byte index where the table starts |
| `PdfDocument.EntryIsRight` | scripts/hetzner/daskuechenhaus_admin_api.py:3461-3471 | Entry k parses to the byte index where `k 0 obj` and its object start |
| `PdfDocument.EntrySlice` | scripts/hetzner/daskuechenhaus_admin_api.py:3469-3471 | Entry k occupies exactly the bytes 20k to 20k + 20 of the table |
| `PdfDocument.OffsetsFit` | scripts/hetzner/daskuechenhaus_admin_api.py:3437-3440 | The truncation to 52 lines of 105 characters keeps every offset below 100000, hence below ten digits |
| `PdfDocument.StreamIsRead` | scripts/hetzner/daskuechenhaus_admin_api.py:3451-3457 | Reading as many bytes as `/Length` says returns the stream and lands on `endstream` |
| `PdfDocument.ContentRoundTrip` | scripts/hetzner/daskuechenhaus_admin_api.py:3435-3442 | A reader of the content operators gets the shown lines back |
| `PdfPages.TreeIsRead` | scripts/hetzner/daskuechenhaus_admin_api.py:3443-3477 | From the bytes, trailer, catalogue, page tree and page lead to the content stream that was written |
| `PdfPages.PdfRoundTrip` | scripts/hetzner/daskuechenhaus_admin_api.py:3434-3478 | From the bytes alone, a reader that follows the page tree gets back title, blank line and text lines, cut to 52 lines of 105 characters |
| `PdfPages.PageShows` | scripts/hetzner/daskuechenhaus_admin_api.py:3434-3442 | The page read back shows the title, an empty line and the text lines, 52 in all at most; each is its first 105 characters in Latin-1 with normalised line ends |
| `PdfPages.FontIsFound` | scripts/hetzner/daskuechenhaus_admin_api.py:3443-3458 | The font the content selects leads from the page's resources to Helvetica |
| `PdfPages.FileFrame` | scripts/hetzner/daskuechenhaus_admin_api.py:3459-3477 | Every file begins with the version line and ends with the end-of-file marker |
| `PdfDocument.ShownExactly` | scripts/hetzner/daskuechenhaus_admin_api.py:3440-3442 | A line is shown unaltered if and only if its kept part is Latin-1 without carriage return |
| `Scanner.ScanTransitionSignals` | scripts/runtime/scan_transition_signals.py:110-214 | The scan returns the specified signals: all patterns in turn, deduplicated and sorted; `ScanMeans` and `ScanOrder` determine it |
| `Scanner.CollectPattern` | scripts/runtime/scan_transition_signals.py:311-336 | One signal for every match of a pattern, in order |
| `Scanner.IsProtectedPath` | scripts/runtime/scan_transition_signals.py:442-446 | The loop decides whether the path has a protected prefix once back slashes and leading `./` are normalised |
| `ScannerMeaning.ProtectedMeans` | scripts/runtime/scan_transition_signals.py:442-446 | A path is protected if and only if, read with either slash and after any number of leading `./`, it begins with one of the guarded prefixes |
| `ScannerMeaning.PathKindExamples` | scripts/runtime/scan_transition_signals.py:432-439 | One path for each way of starting that the kinds tell apart |
| `Scanner.DedupeSignals` | scripts/runtime/scan_transition_signals.py:416-429 | The dictionary loop computes the specified deduplication |
| `Scanner.DedupeFacts` | scripts/runtime/scan_transition_signals.py:416-429 | The result is sorted, has unique keys, holds only input records and one for every input key |
| `Scanner.DedupeIdempotent` | scripts/runtime/scan_transition_signals.py:416-429 | Deduplicating twice changes nothing |
| `Scanner.ScanIsExact` | scripts/runtime/scan_transition_signals.py:110-214 | Deduplication loses no record of a scan; every signal has value = span = the text slice at its offsets |
| `ScannerMeaning.ScanMeans` | scripts/runtime/scan_transition_signals.py:110-214 | For every text and record: it is in the scan if and only if it quotes the text at its offsets and those are a match of the pattern of its kind; a path is a path match cut before trailing punctuation that still holds a slash, a protected path is such a path under a guarded prefix |
| `ScannerMeaning.ScanOrder` | scripts/runtime/scan_transition_signals.py:416-429 | Records come by start offset and then by the name of their kind |
| `Scanner.TrimKeepsProtection` | scripts/runtime/scan_transition_signals.py:442-454 | A trimmed path is protected if and only if the untrimmed one is, and is then never dropped |
| `Scanner.ProtectedMatchIsReported` | scripts/runtime/scan_transition_signals.py:118-151 | Every match that is protected before trimming is reported as path and as protected path at the same offsets |
| `Evidence.EvidenceViolations` | scripts/runtime/validate_transition_evidence.py:117-128 | The checks in turn return the specified violations; `AcceptedMeans` says exactly when there are none |
| `EvidenceMeaning.AcceptedMeans` | scripts/runtime/validate_transition_evidence.py:117-266 | Evidence is accepted if and only if indexed hashes are right, every span quotes its artifact, true fields have evidence, the unknown fields are listed exactly, an escalation is recomposed, complete and not blocked, a repository write is intended and bound, eight scanners have version 0.1.0, every scanned signal is enclosed by its own kind of evidence, and six contents are forbidden |
| `EvidenceMeaning.SpanTable` | scripts/runtime/validate_transition_evidence.py:150-174 | Which violations a span gives, for every combination of wrong hash, reversed offsets, offsets beyond the text and wrong quotation; an artifact replaced by a later one with its id does not count |
| `Evidence.CheckCoverage` | scripts/runtime/scan_transition_signals.py:217-250 | One violation for every signal of every artifact that no span covers |
| `Evidence.AcceptedSite` | scripts/runtime/validate_transition_evidence.py:131-187 | In accepted evidence every span is the exact non-empty slice of an indexed artifact whose hash is right |
| `Evidence.AcceptedSignal` | scripts/runtime/scan_transition_signals.py:229-250 | In accepted evidence every scanned signal of every artifact is covered |
| `Evidence.AcceptedEvidenceIsComplete` | scripts/runtime/validate_transition_evidence.py:117-187 | Every signal in any raw artifact, replaced duplicates included, lies in a span of its field that quotes it exactly, and the indexed artifact has the scanned text, unless two texts collide under the hash |
| `Evidence.AcceptedEscalation` | scripts/runtime/validate_transition_evidence.py:190-255 | Accepted escalation requires recomposition, is not "allowed", has complete scans everywhere, and recomposes with at most destructive intent unknown |
| `Evidence.PolicyGap` | docs/policies/intent-transition-gates.md:95-105 | Accepted evidence meets the unknown-blocks policy if and only if it does not recompose with destructive intent unknown |
| `Evidence.PolicyGapExample` | docs/policies/intent-transition-gates.md:95-105 | For every text without signals, evidence with its true hash that is accepted and violates the policy |
| `Traces.SignalCoverage` | scripts/runtime/evaluate_intent_transition_traces.py:152-168 | Every expected signal is either matched or listed as missed, in order |
| `Traces.ReviewMeans` | scripts/runtime/evaluate_intent_transition_traces.py:135-149 | For every turn: human review is decided if and only if the text matches the destructive pattern, some path in it is guarded, or a protected write is requested |
| `Traces.RecompositionMeans` | scripts/runtime/evaluate_intent_transition_traces.py:135-149 | Recomposition is decided if and only if review is not, a repository write is requested, and the text matches the write and the repository pattern and names a path |
| `Traces.DecideMeans` | scripts/runtime/evaluate_intent_transition_traces.py:135-149 | All four decisions, each exactly, by the kinds present and the capabilities requested |
| `Traces.MissedMeans` | scripts/runtime/evaluate_intent_transition_traces.py:152-168 | A signal is missed if and only if it is expected and no scanned signal has its kind and span |
| `Traces.EvaluateTraces` | scripts/runtime/evaluate_intent_transition_traces.py:23-105 | Fails if and only if a case deviates, naming exactly the deviating cases; otherwise returns the specified report |
| `Traces.ShadowMetricsAreForced` | scripts/runtime/evaluate_intent_transition_shadow_metrics.py:101-150 | For every non-empty suite that passes: three rates are 0, coverage is 1, and the other two say only whether a case of their kind exists |
| `Ruleset.RuleParams` | scripts/security/validate_ruleset_config.py:63-67 | The search loop returns the parameters of the first rule of a type, or none |
| `Ruleset.FailureShows` | scripts/security/validate_ruleset_config.py:70-178 | Against a valid desired ruleset, every validation failure of the live one is drift at a severity fixed by the failure, unless it is a switch written as a number |
| `Ruleset.QuietDriftTransfers` | scripts/security/validate_ruleset_config.py:181-230 | A live ruleset whose drift has nothing critical or high is valid if and only if name, target and branch are right and its switches are genuine booleans |
| `Ruleset.DriftFreeTransfers` | scripts/security/validate_ruleset_config.py:328-466 | With a valid desired ruleset and no drift, the live ruleset is valid if and only if its switches are genuine booleans |
| `Ruleset.NoSelfDrift` | scripts/security/validate_ruleset_config.py:117-178 | Comparing any ruleset with itself finds nothing |
| `Ruleset.NoDriftMeans` | scripts/security/validate_ruleset_config.py:117-178 | There is no finding if and only if every compared field is equal: names, conditions, rule types, review count, all five switches, merge methods and check contexts |
| `Ruleset.FindingsMean` | scripts/security/validate_ruleset_config.py:117-178 | Which finding stands for which drift, at which severity, for all fifteen fields and both directions of each set |
| `Ruleset.ValidMeans` | scripts/security/validate_ruleset_config.py:70-114 | There is no validation failure if and only if name, target, enforcement, branch, rule types, review count, switches and check contexts are as required |
| `Ruleset.NumericSwitchIsSilent` | scripts/security/validate_ruleset_config.py:328-381 | In any valid ruleset, writing the code-owner switch as 0 is no drift and is the one validation failure |
| `Ruleset.NumericSwitchExample` | scripts/security/validate_ruleset_config.py:90-99 | The versioned ruleset, which is valid, and its copy with a numeric switch: no drift, but invalid |
| `ActionPins.CheckPins` | scripts/security/check_workflow_hardening.py:45-54 | The numbers of exactly the lines whose reference is not allowed |
| `ActionPins.CollectActions` | scripts/security/generate_actions_bom.py:30-52 | One entry for every line with a reference, in order |
| `ActionPins.UsesLineMatches` | scripts/security/check_workflow_hardening.py:9 | A line of the form spaces, optional dash, `uses:`, spaces, reference gives exactly that reference, up to the next white space or `#` |
| `ActionPins.MatchIsUsesLine` | scripts/security/check_workflow_hardening.py:9 | Conversely every line that gives a reference has that form |
| `ActionPins.RejectedMeans` | scripts/security/check_workflow_hardening.py:18-54 | A line is rejected if and only if it uses an action whose reference, without quotes, is not local, not an image with a digest and does not end with @ and 40 hex digits |
| `ActionPins.EntryMeans` | scripts/security/generate_actions_bom.py:15-50 | The entry of a reference splits it at the last @ and has the kind its beginning says |
| `ActionPins.ValidateBom` | scripts/security/validate_actions_bom.py:11-27 | The failures of any bill of materials: version, entries not pinned as their kind demands, unknown kinds, in order |
| `ActionPins.BomMeans` | scripts/security/validate_actions_bom.py:11-27 | A bill of materials has no failure if and only if its version is 0.1.0, every kind is known, external actions are pinned to a full hash and images to a digest |
| `ActionPins.PinFormsAgree` | scripts/security/generate_actions_bom.py:23-27 | "Ends with @ and 40 hex digits" if and only if the part after the last @ is 40 hex digits |
| `ActionPins.PinChecksAgree` | scripts/security/check_workflow_hardening.py:18-54 | For every workflow text, validating its generated bill of materials complains about exactly the lines the hardening check rejects, in the same order, and about nothing else |
| `CaratBlocks.ReadSuppliers` | scripts/hetzner/daskuechenhaus_admin_api.py:1203-1231 | The supplier loop returns the declared suppliers with their catalogue data, the suffix dictionary and the ignored suffixes |
| `CaratMeaning.DeclaredMeans` | scripts/hetzner/daskuechenhaus_admin_api.py:1214-1230 | A supplier is listed if and only if some line of section 002 with a 2000 code names it, with that code, catalogue, date and kind, and the name does not stand for picture data |
| `CaratMeaning.IgnoredMeans` | scripts/hetzner/daskuechenhaus_admin_api.py:1214-1221 | A suffix is ignored if and only if a supplier line for picture data has it |
| `CaratMeaning.SuffixStandsFor` | scripts/hetzner/daskuechenhaus_admin_api.py:1218-1231 | Of several suppliers with one suffix the suffix stands for the one declared last |
| `CaratMeaning.SuffixMeans` | scripts/hetzner/daskuechenhaus_admin_api.py:1218 | The suffix of a code is what follows four characters and any zeros, with the two fall-backs |
| `CaratBlocks.ReadBlock` | scripts/hetzner/daskuechenhaus_admin_api.py:1256-1290 | The loop over the first 80 lines of a block gives the specified fields, which `FieldsAreIndependent` and `ReadLinesMeans` characterise |
| `CaratBlocks.ParsePositions` | scripts/hetzner/daskuechenhaus_admin_api.py:1233-1313 | One position, in order, for every block that is to be reported, with parsed quantity and dimensions |
| `CaratBlocks.BlocksPartition` | scripts/hetzner/daskuechenhaus_admin_api.py:1238-1244 | The blocks put together are the lines from the first marker to the end |
| `CaratBlocks.BlockHasOneMarker` | scripts/hetzner/daskuechenhaus_admin_api.py:1233-1244 | A line of a block is a marker if and only if it is its first line |
| `CaratBlocks.FieldsAreIndependent` | scripts/hetzner/daskuechenhaus_admin_api.py:1256-1290 | Each field depends on the lines with its own code alone, and the last of them wins |
| `CaratBlocks.ReadLinesMeans` | scripts/hetzner/daskuechenhaus_admin_api.py:1274-1288 | A block is ignored if and only if one of its article lines has a suffix compatible with an ignored supplier; its supplier is empty or declared |
| `CaratMeaning.FindSupplierMeans` | scripts/hetzner/daskuechenhaus_admin_api.py:1284-1288 | The supplier found is that of the first suffix, in dictionary order, which is an end of the article's or has it as an end; none is found if and only if there is no such suffix |
| `CaratMeaning.SupplierOfBlock` | scripts/hetzner/daskuechenhaus_admin_api.py:1274-1288 | The supplier of a block is that of its last article line for which one is found |
| `CaratMeaning.ValueMeans` | scripts/hetzner/daskuechenhaus_admin_api.py:1146-1151 | The value of a text line is the text after the code and the other non-empty parts, joined by one blank if both are there |
| `CaratBlocks.ReportIsFaithful` | scripts/hetzner/daskuechenhaus_admin_api.py:1238-1313 | Positions come from exactly the reportable blocks, with strictly increasing source lines at distinct markers, each with a title, a declared supplier or none, and no ignored article line |
| `CaratMeaning.PositionsMean` | scripts/hetzner/daskuechenhaus_admin_api.py:1233-1313 | For every file: one position for exactly each reportable block, in order; each has source line, number, supplier, article code, title, descriptions, quantity and the three dimensions that the first 80 lines of its block give |
| `EmailAssignment.Mailroom.Assign` | scripts/hetzner/daskuechenhaus_admin_api.py:6687-6803 | New e-mail row, links and suggestions after an assignment, also when the case is gone, and when it succeeds; `AssignMeans` says which suggestion becomes accepted |
| `EmailAssignment.Mailroom.Decide` | scripts/hetzner/daskuechenhaus_admin_api.py:6902-6986 | New state after a suggestion is accepted or rejected, and when it succeeds; `SuggestionMeans` lists it part by part |
| `EmailAssignment.Mailroom.SetLifecycle` | scripts/hetzner/daskuechenhaus_admin_api.py:6806-6899 | New e-mail row, with user and time, after archiving or deleting; nothing else changes (`LifecycleMeans`, `InvisibleStays`) |
| `EmailAssignment.RunGrows` | scripts/hetzner/daskuechenhaus_admin_api.py:6762-6774 | In every run decided suggestions never change again and no link disappears |
| `EmailAssignment.RunKeepsLinked` | scripts/hetzner/daskuechenhaus_admin_api.py:6941-6964 | In every run every accepted suggestion naming a case has its link |
| `EmailAssignment.DecisionClearsPending` | scripts/hetzner/daskuechenhaus_admin_api.py:6975-6986 | Assigning an e-mail or accepting a suggestion leaves none pending for that e-mail |
| `EmailAssignment.DeletedIsFrozen` | scripts/hetzner/daskuechenhaus_admin_api.py:6825-6863 | Once an e-mail is deleted, no run changes its row, links or suggestions, and suggestions made for it later are never decided |
| `EmailAssignment.StepKeepsAssignedLinked` | scripts/hetzner/daskuechenhaus_admin_api.py:6740-6761 | A step keeps "assigned means linked" if and only if it assigns nothing, has a case to link, or the e-mail was linked before |
| `EmailAssignment.RunsLinkExactly` | scripts/hetzner/daskuechenhaus_admin_api.py:6740-6761 | After every run, assigned means linked if and only if every e-mail some step assigned was assigned with a case by some step |
| `EmailAssignment.AssignedWithoutLinkExample` | scripts/hetzner/daskuechenhaus_admin_api.py:6950-6974 | Concrete acceptance of a suggestion without a case after which an assigned e-mail has no link |

## Left out

Not modelled:

- The HTTP handler, sessions and tokens, object storage, psql plumbing, file access, and the front ends.
- Read-only state queries and the visibility rules inside the statements: whether the actor may see a row is a flag.
- Exporting and drafting around the core: supplier communication drafts, communication events, notes, CSV and zip
  exports.
- Attachments and participants of imported messages, and the loop over several accounts; the import covers message
  rows of one account, with the failure handling of its caller.
- MIME, JSON Schema, zip and character decoding: positions, mails, evidence and CARAT lines are already parsed.
- Threshold gates over the shadow metrics, ruleset evidence files, and the validators that are flat lists of checks.
- The checks of `check_workflow_hardening` other than action pinning.

Abstractions:

- Regular expressions of the scanner are arbitrary functions that return spans inside the text; the hash is an
  arbitrary function, and a collision is an explicit case of the theorem. Supplier-name normalisation and the reading
  of decimals in CARAT files are arbitrary.
- Decimals are reals, dates are day numbers; upper-casing of article codes covers ASCII letters, white space covers
  the characters up to U+00FF.
- Wording of messages: a violation, finding or exception is a value of a type, not a text.
- Rulesets have integer review counts and typed rules; a ruleset whose JSON has other shapes is not represented.
  Validation and comparison, which append to a list check by check, are functions; only the rule search is a loop.
- The header fields of a CARAT file are not read.
- The PDF reader finds a dictionary value by its key and does not parse the rest of the dictionary.
- Confirmation ids and exception ids are fresh when a confirmation is created, as the database assigns them, and order
  positions have distinct positive ids. A folder's UIDVALIDITY only grows, and suggestions come from outside.

Weaker than one might expect:

- MailImportRuns.HistoryKeepsInv: speaks about one UIDVALIDITY epoch, because the code loses messages across a change;
  EpochChangeExact gives the exact condition for the change. "Stored" means that the external id is in the table;
  OwnRowIsStored says when the row is the message's own.
- MailImportCrashes.CrashRetryExact: covers message rows and the account row of a mailbox at rest, not attachments, which
  are stored after the row and are not repeated.
- CaratBlocks.ParsePositions: the raw text of the marker line, which a position keeps for reference, is not modelled,
  because lines are already split.

# A verified model of an AI code-review service

A pull request arrives by webhook. The service decides whether to review it, selects review skills, knowledge cards and
policy sections, packs the changed files into prompt batches, asks a language model, validates what it answers, stores the
result, and publishes it as one summary comment and a set of inline comments. Meanwhile clients follow the progress
events of the review over Server-Sent Events.

This project models the parts of that service that decide something, in the form the Python code gives them: loops are
methods with invariants, objects that change are classes, and pure expressions are functions. Each method is proved
against a specification function, and the properties the service relies on are proved about that function, for every
input, every run and every interleaving. Where the code does not meet the property one would expect, the model keeps the
code, a lemma gives a concrete input, and another states exactly when the property holds.

| file | models |
|---|---|
| `Text.dfy`, `AsciiText.dfy`, `Sorting.dfy`, `Lists.dfy` | strings with the laws of their Unicode operations and an instance of them, Python's stable sort, first-per-key, filtering and sorted-set idioms |
| `Schemas.dfy` | the data passed along the pipeline |
| `DiffReaders.dfy`, `HunkHeaders.dfy`, `DiffRendering.dfy`, `DiffRoundTrips.dfy`, `DiffPrefixes.dfy` | the two readers of unified diffs (IEEE Std 1003.1-2017, `diff` utility, `diff -u` output format), on whole and on cut patches |
| `ReviewQuality.dfy`, `FindingChecks.dfy`, `FindingMeaning.dfy`, `FindingPipeline.dfy`, `FindingValidation.dfy`, `FindingReport.dfy`, `FixpointLimits.dfy` | validation and ranking of findings, what is kept and in which form, and the report |
| `Events.dfy`, `Sse.dfy` | the event bus with its streams, and its wire form (WHATWG HTML, section 9.2.6, read back as section 9.2.4 lets a client resume) |
| `PromptBuilder.dfy`, `FileSelection.dfy` | budgeted selection, batching, and the second budget pass; which files are shown and how much of them |
| `Rag.dfy` | policy ranking and markdown chunking |
| `PolicyHarness.dfy`, `HarnessChoice.dfy` | markers, skill selection, fair card allocation; what is chosen, in scores and in what is found |
| `GraphExecutor.dfy`, `ReviewGraph.dfy`, `LlmMerge.dfy` | the worklist executor, the review graph on it, the merge of batch answers |
| `Publisher.dfy`, `ScopeIsolation.dfy` | comments against a modelled GitHub, with calls that fail or lose their answer, and what keeps the two scopes apart |
| `Webhook.dfy`, `WebhookDeliveries.dfy`, `WebhookRaces.dfy` | webhook plans, idempotency keys, and the background handler; what a delivery adds, one after another and several at the same time |
| `Citations.dfy`, `CitationLimits.dfy` | what the prompts of all batches offer to be cited, and what validation accepts as a citation |
| `CommentLines.dfy` | where the comments of a review go: validation, diff readers and prompt budgets together |
| `System.dfy` | the events of a whole review on the bus, as a client sees them |

## Main results

* **Validation is a fixpoint on its own output exactly when no accepted finding carries a forbidden marker of its card**,
  which can be told from the received findings: the guard must not fire on their stripped texts and measured evidence.
  A finding that has passed it can trip it then for two causes. Stripping can bring the parts of a marker together: with a
  card and a marker as they are shipped, an accepted finding is dropped when it is validated again (`StrippingCanFail`).
  Measured evidence can bring a word in, though not with the shipped complexity card, which has no markers
  (`FixpointCanFail`). Whatever the model says, validation is a fixpoint when no marker holds white space and the
  complexity card has none (`FixpointWithSteadyCards`). What is accepted runs from high to low and from sure to unsure, and
  nothing that the limit cuts off is better (`CutOffIsNoBetter`).
* **The two diff readers are inverse to rendering and agree with each other**; the line reader is right if and only if no
  deleted text starts with `--`, the text reader if and only if no added text starts with `++`. Of a patch that is cut
  anywhere they return the beginning of the same, up to the same place.
* **Validated comments point at lines of the new file, and both readers have these lines at the same place.** They need not
  be lines that the model was shown: the validator reads the whole patch, the prompt its beginning. Each reader finds a
  line in that beginning if and only if it is before the cut, or it is the next line and what is left of the cut line reads
  as it (`CutShows`, `CommentsAndPrompt`). A concrete finding is accepted on a line no prompt showed
  (`AcceptedOutsidePrompt`); for a given request none can be, whatever the model says, if and only if no diff line of a file
  that can be commented on is hidden (`CommentsShownExactly`), as where the request fits its budgets (`NothingIsCut`).
* **What a prompt offers for citation is what validation accepts**: a policy is known if and only if some batch has it, and
  so is a card, unless no batch lists any card: then validation asks for one of the cards of the whole request, which no
  prompt has listed (`CardsAgreeExactly`, with a concrete review in `UnlistedCardIsAsked`).
* **No run overflows the event bus.** Every webhook review of B batches publishes at most 15 + 2B events, B is at most 22
  by the prompt budgets, so the log of 200 is never cut, the numbers are exactly 1..n, and under every interleaving a
  polling, reconnecting client gets each event up to the end of the run exactly once, with what was published in it. For
  an arbitrary cap the exact law is proved too: the k-th number is min(k, cap + 1), and a client that has received number
  cap + 1 can only get the rest of the snapshot it is in, and nothing at all exactly when that is used up.
* **Every review publishes exactly one terminal event of its own, as its last**, whichever call fails, and no stage reads
  a key that was not written before.
* **The second budget pass loses nothing**, except when the budget is used up exactly and the last file has no patch;
  a concrete batch shows the dropped file.
  Which files are shown, and how much of each, is exactly what the more urgent ones before them leave (`SelectionExactly`).
* **Two-stage retrieval equals one-stage retrieval**, ties included; chunking conserves the text of every section. The
  bonus of ten puts the repository's own policy before every chunk of up to a hundred words, not before longer ones
  (`RepositoryComesFirst`, `RepositoryCanBeOutranked`).
* **Card allocation is fair**, fills the places, and leaves out only cards that score lowest; a limit of zero still takes
  one. A card is eligible exactly when its markers are found file by file (`EligibleExactly`).
* **Comments**: over any run of publishes, with others commenting between them, each scope shows exactly its last review
  and the others' comments are all there; whatever call fails, and in whichever way, none of these is changed. A second
  summary appears exactly when the listing or the update fails with an exception that the publisher expects (HTTPError,
  URLError, ValueError) and the fallback post is carried out; any other exception ends the publish. Whatever call fails,
  publishing in one scope leaves the own comments of the other alone if and only if no own comment that is deleted or
  updated carries both markers and no text quotes the other one (`ScopesAreIsolated`).
* **Webhooks**: a push is reviewed once for each commit (`NextPushIsReviewed`). Deliveries that come one after another
  never store a key twice if no plan has two requests with one key; one delivery cannot, whichever of its reviews fail, if
  and only if no two of its new requests share a key, as they do when a check lists a pull request twice; and deliveries
  that are dealt with at the same time cannot, under every schedule, if and only if no two new requests of them all share
  a key, so that a redelivery can be reviewed twice (`RacesExactly`, `TwinsRace`). With the two modes there are, keys tell
  reviews apart whatever the repository is called (`KeyIdentifiesAnyName`). The service's own checks start nothing once an
  App ID is set, and do otherwise.

Three remarks in the code do not say what it does; the model follows the code. Line 206 of
`backend/app/services/rag.py` has the bonus put the repository's policy practically always on top, which it does not for
long chunks. Line 90 of `backend/app/services/review_quality.py` excludes file headers from the deleted lines, which also
makes it count deleted lines whose text starts with `--`. Line 54 of `backend/app/services/events.py` numbers events by
the length of the log, which stands still once the log is cut.

## Model

| member | source | states |
|---|---|---|
| DiffReaders.ReadRightSideDiffLines | backend/app/services/review_quality.py:71-96 | the loop over raw lines collects the numbers that the line kinds count |
| DiffReaders.ReadReviewablePatchText | review_harness/scripts/diff_signals.py:161-177 | the loop joins exactly the reviewable lines |
| HunkHeaders.HeaderExactly | backend/app/services/review_quality.py:63-65 | a line is a hunk header with a start if and only if it has the form of the pattern with that start |
| HunkHeaders.OtherLines | backend/app/services/review_quality.py:84-94 | of the other lines the line reader skips exactly the deleted ones and the marker of a missing newline; the text reader leaves out all that start like a header, a deletion or that marker, and strips the sign |
| DiffRendering.HeaderReadBack | backend/app/services/review_quality.py:63-65 | the header pattern reads back the new-side start of every rendered hunk header, one-line ranges and headings included |
| DiffRoundTrips.RightSideRoundTrip | backend/app/services/review_quality.py:71-96 | reading a rendered patch gives exactly the new-file numbers of kept and added lines, if and only if no deleted text starts with two dashes |
| DiffRoundTrips.DashedDeleteMisleads | backend/app/services/review_quality.py:90-92 | deleting a line that starts with two dashes makes the reader accept a line that the new file does not have |
| DiffRoundTrips.ReviewableRoundTrip | review_harness/scripts/diff_signals.py:161-177 | the reviewable lines of a rendered patch are the new-file texts in the hunks, if and only if no added text starts with two plus signs |
| DiffRoundTrips.PlusedAddIsDropped | review_harness/scripts/diff_signals.py:170-171 | adding a line that starts with two plus signs: the new file has it, the reviewable text has not |
| DiffRoundTrips.ReadersAgree | review_harness/scripts/diff_signals.py:161-177 | the i-th reviewable line is the new-file text at the i-th smallest accepted number, and there are as many of both, whether or not hunks are apart |
| DiffRoundTrips.NumbersIndex | backend/app/services/review_quality.py:71-96 | right-side numbers increase and index the right texts in the new file |
| DiffPrefixes.CutIsRead | backend/app/services/prompt_builder.py:220-227 | of a patch cut anywhere both readers return exactly the first numbers and the first texts, as many of both, and then what they make of the line that was cut, whose number is at most the next one |
| DiffPrefixes.CutShows | backend/app/services/prompt_builder.py:220-227 | for every line of the new file in the diff: its number is read from the beginning if and only if it is before the cut or the cut line counts as it, and its text at its place if and only if it is before the cut or the cut line gives exactly this text |
| ReviewQuality.CanonicalPolicySources | backend/app/services/review_quality.py:99-112 | the loop builds the source table |
| ReviewQuality.CanonicalIsFixed | backend/app/services/review_quality.py:99-112 | every canonical source leads to itself |
| ReviewQuality.CanonicalSourcesMean | backend/app/services/review_quality.py:99-112 | a source is known exactly when a policy has it as path or as path and section, and what it leads to |
| ReviewQuality.UpdateTwice | backend/app/services/review_quality.py:253-269 | writing the measured evidence a second time changes nothing |
| FindingChecks.CheckCounts | backend/app/services/review_quality.py:175-300 | a dropped finding raises exactly one of its dropped counters, a kept one none |
| FindingChecks.KeptIsShowable | backend/app/services/review_quality.py:175-300 | what passes is normalised, in the diff, canonical, capped by its card and backed by measurements |
| FindingChecks.ShowableIsFixed | backend/app/services/review_quality.py:175-300 | a showable finding passes again unchanged unless the forbidden-marker guard fires |
| FindingChecks.PassingIgnoresPlace | backend/app/services/review_quality.py:175-300 | a finding that passes does so on any line |
| FindingChecks.GuardIsForetold | backend/app/services/review_quality.py:221-269 | the guard fires on what passed if and only if it fires on the received finding with stripped texts and measured evidence |
| FindingChecks.SteadyGuard | backend/app/services/review_quality.py:221-231 | stripping neither adds nor removes a marker without white space |
| FindingMeaning.TablesMean | backend/app/services/review_quality.py:141-153 | the look-up tables hold, for each path and ID, the last element that has it |
| FindingMeaning.KeptExactly | backend/app/services/review_quality.py:175-269 | a finding is kept if and only if its file has changed, both texts are given in Korean, and it cites a known card that allows it wherever there are cards |
| FindingMeaning.DroppedAs | backend/app/services/review_quality.py:175-251 | the first thing that is wrong with a finding decides the counter |
| FindingMeaning.KeptCounted | backend/app/services/review_quality.py:193-300 | a kept finding is counted exactly for a removed source, a removed line and a lowered severity |
| FindingMeaning.KeptLines | backend/app/services/review_quality.py:271-283 | a line outside the diff is removed with its end, an end that does not fit becomes the start, everything else stays |
| FindingMeaning.KeptFields | backend/app/services/review_quality.py:285-300 | what becomes of category, confidence, texts and policy source |
| FindingMeaning.KeptSeverity | backend/app/services/review_quality.py:190-236 | "high" exactly when the finding and its card both say so in one of six words, "low" exactly when one of them does in one of four |
| FindingMeaning.KeptEvidence | backend/app/services/review_quality.py:238-269 | a complexity finding shows all nine values of the measurement that supports it; all other evidence is as the model wrote it |
| FindingPipeline.TallyConserves | backend/app/services/review_quality.py:154-307 | received findings are the unique ones and the dropped ones, counted once each |
| FindingPipeline.RankIsPreorder | backend/app/services/review_quality.py:312-319 | the sort key (severity, confidence, path, line) is a total preorder |
| FindingPipeline.RankMeans | backend/app/services/review_quality.py:312-319 | "high" ranks before anything else and anything else before "low"; at the same severity the surer finding first, then by path and line, where no line is line 0 |
| FindingPipeline.LimitIs | backend/app/services/review_quality.py:33-37 | three findings in a simple review, six by policies, eight in a deep one, six on other routes |
| FindingValidation.ExamineCard | backend/app/services/review_quality.py:220-269 | guard, severity cap and measured evidence, step by step, are the specified check |
| FindingValidation.Normalize | backend/app/services/review_quality.py:271-300 | line repair and the normalised copy are the specified ones |
| FindingValidation.ExamineGrounds | backend/app/services/review_quality.py:205-300 | the checks from the card on are the specified ones, and note invented card IDs |
| FindingValidation.ExamineFinding | backend/app/services/review_quality.py:175-300 | the checks of one finding, in their order, are the specified ones |
| FindingValidation.CollectFindings | backend/app/services/review_quality.py:171-307 | the loop with its seen keys is filter and normalise, then first per key |
| FindingValidation.ValidateAndRankFindings | backend/app/services/review_quality.py:131-330 | the whole loop, sort and cut refine the pure pipeline, report included |
| FindingValidation.ReportConserves | backend/app/services/review_quality.py:154-330 | received = accepted + all dropped counters |
| FindingReport.ReportTells | backend/app/services/review_quality.py:154-330 | every counter of the report is what the findings are counted for by themselves, duplicates and findings over the limit are what is missing between those that pass, the unique and the accepted ones, and the invented card IDs are listed once |
| FindingMeaning.CountersAdd | backend/app/services/review_quality.py:175-300 | what a finding is counted for does not depend on what was counted before |
| FindingValidation.AcceptedAreBest | backend/app/services/review_quality.py:312-325 | no finding cut off by the limit sorts before a kept one |
| FindingValidation.AcceptedInOrder | backend/app/services/review_quality.py:312-319 | accepted findings run from grave to slight, and from sure to unsure within a severity |
| FindingValidation.CutOffIsNoBetter | backend/app/services/review_quality.py:320-324 | no finding that the limit cuts off is graver than an accepted one, or as grave and surer |
| FindingValidation.ClaimsDiffer | backend/app/services/review_quality.py:115-128 | no two findings say the same: file, line, category in any case, message in any case and spacing |
| FindingValidation.ClaimIsKept | backend/app/services/review_quality.py:301-307 | of what passes, each claim is kept once |
| FindingValidation.AcceptedIsKept | backend/app/services/review_quality.py:175-330 | every accepted finding is the normalised form of a received one |
| FindingValidation.AcceptedAreShowable | backend/app/services/review_quality.py:175-330 | every accepted finding is showable |
| FindingValidation.AcceptedAreDistinct | backend/app/services/review_quality.py:301-319 | accepted findings have different keys and are in rank order |
| FindingValidation.ValidationFixpoint | backend/app/services/review_quality.py:131-330 | validating the accepted list again returns it with every counter at zero, if and only if no accepted finding has a forbidden marker |
| FindingValidation.FixpointOfReceived | backend/app/services/review_quality.py:131-330 | the same, told from the received findings: none whose normal form is accepted trips the guard once it is stripped and measured |
| FindingValidation.AlwaysFixpoint | backend/app/services/review_quality.py:131-330 | for given files, metrics, policies and cards, validation is a fixpoint on every list of findings if and only if no finding passes and trips the guard later |
| FindingValidation.FixpointWithSteadyCards | backend/app/services/review_quality.py:131-330 | it is when no marker holds white space and the complexity card has no markers |
| FindingValidation.FixpointWithoutMarkers | backend/app/services/review_quality.py:131-330 | without forbidden markers on the cards it always does |
| FixpointLimits.ForbiddenToolTrips | backend/app/services/review_quality.py:221-231 | a card that forbids the tool's name drops its own measured findings when they come again |
| FixpointLimits.FixpointCanFail | backend/app/services/review_quality.py:221-269 | a concrete accepted finding that is dropped on the second validation |
| FixpointLimits.StrippingCanFail | backend/app/services/review_quality.py:221-231 | with a shipped card and marker, a concrete accepted finding without evidence that is dropped on the second validation |
| Sorting.StableUnique | backend/app/services/review_quality.py:312-319 | sorted and stable leave one possible result |
| Sorting.SortStable | backend/app/services/rag.py:220-222 | elements that compare equal keep their order |
| Sorting.TwoStageTopK | backend/app/services/review_graph.py:349-361 | cutting one part to its k best before joining does not change the k best |
| Lists.FirstPerKeyMeans | backend/app/services/review_quality.py:301-307 | deduplication keeps one element per key, the first |
| Lists.LastPerKeyMeans | backend/app/services/review_graph.py:388-399 | assigning to a dictionary in turn leaves each key once, and only what was assigned |
| Events.InMemoryReviewEventBus.Publish | backend/app/services/events.py:42-62 | appends an event with the given run, type and payload and the next number, and cuts the log, keeping the bus law |
| Events.InMemoryReviewEventBus.Snapshot | backend/app/services/events.py:75-82 | the events after a number, in order |
| Events.EventStream.Poll | backend/app/services/events.py:100-105 | takes a new snapshot when the last one is used up |
| Events.EventStream.Yield | backend/app/services/events.py:104-113 | hands out the next event and closes after a terminal one |
| Events.PublishKeepsLaw | backend/app/services/events.py:42-62 | number min(k, cap + 1) for the k-th publish, and the log is the last cap publishes |
| Events.RunKeepsLaw | backend/app/services/events.py:42-62 | the law over every run and interleaving, for every cap |
| Events.HistoryIsTold | backend/app/services/events.py:42-62 | over every run and for every cap: the k-th event carries the run, type and payload of the k-th publish, and the log holds the last ones unchanged |
| Events.DeliveredInOrder | backend/app/services/events.py:89-120 | with at most cap publishes, what a client has received is always a prefix of the history |
| Events.ReceivedIsTold | backend/app/services/events.py:89-120 | the k-th event that a client receives carries what was published k-th |
| Events.StopsAtTerminal | backend/app/services/events.py:104-113 | a stream is closed exactly when its last delivered event is terminal, and no earlier one is |
| Events.ExactlyOnce | backend/app/services/events.py:89-120 | a client that polls on has received each event up to the first terminal one exactly once, through any reconnects |
| Events.CatchesUp | backend/app/services/events.py:89-120 | draining, polling and draining again delivers all that is left up to the first terminal event |
| Events.ReachedIsConsistent | backend/app/services/events.py:89-120 | for every cap and all steps: a client waits for the number after its last, what is pending climbs, and no number exceeds cap + 1 |
| Events.SaturatedGetsItsSnapshot | backend/app/services/events.py:100-113 | a client that has received number cap + 1 can only get a beginning of what its snapshot still holds |
| Events.SaturatedReceivesNothing | backend/app/services/events.py:100-113 | it gets nothing more on any continuation if and only if that snapshot is used up |
| Events.ReconnectLosesSnapshot | backend/app/services/events.py:89-105 | a connection that drops in the middle of that snapshot loses the rest for good |
| Events.SaturatedCanReceive | backend/app/services/events.py:54-62 | four events on a log of two: the client gets two events with the number 3 |
| Events.LateClientGetsAll | backend/app/services/events.py:54-62 | a late client gets the whole history if and only if it was never cut |
| Sse.WireRoundTrip | backend/app/services/events.py:123-131 | interpreting the formatted stream gives back exactly the events, comments ignored, with the last event ID |
| Sse.FormatIs | backend/app/services/events.py:117-131 | the text of an event on the wire, with its three fields, and that of a keep-alive |
| Sse.LastIdIs | backend/app/services/events.py:123-131 | the last event ID is the number of the last event sent |
| PromptBuilder.SelectedFilesForReview | backend/app/services/prompt_builder.py:207-230 | the budgeted loop selects what the specification does |
| PromptBuilder.GroupFiles | backend/app/services/prompt_builder.py:233-259 | the packing loop is next-fit |
| PromptBuilder.BuildReviewPromptBatches | backend/app/services/prompt_builder.py:439-500 | the batches hold all selected files in order, each within its budget, with the measurements of its own files, the cards and policies chosen for them, its number, the count and its characters |
| PromptBuilder.ChangedFileSnapshot | backend/app/services/prompt_builder.py:154-204 | the second budget pass over a batch and its scope, with the place of the batch; for a batch that fits, no patch is cut, and the scope reports a missing file exactly when the tail is lost |
| PromptBuilder.ReviewOrderIsPreorder | backend/app/services/prompt_builder.py:138-151 | the review priority orders any two files |
| PromptBuilder.SelectionUsesBudget | backend/app/services/prompt_builder.py:207-230 | the selection takes exactly the smaller of the budget and what there is |
| PromptBuilder.SelectionIsCut | backend/app/services/prompt_builder.py:207-230 | the selected files are candidates at increasing places, their patches cut to prefixes; those without a patch are all there, and all are when their limited patches fit |
| PromptBuilder.NothingIsCut | backend/app/services/prompt_builder.py:207-230 | all files are selected uncut if and only if there are few enough of them, no patch is over 4000 characters and together they fit |
| FileSelection.BudgetsAre | backend/app/services/prompt_builder.py:98-110 | how many files and characters a request and a batch may have, by route |
| FileSelection.OrderIsUrgency | backend/app/services/prompt_builder.py:138-151 | files come by risk of the path, then by signals in the patch, then by changed lines, and tie only where all three do |
| FileSelection.CandidatesByUrgency | backend/app/services/prompt_builder.py:216-217 | the candidates run from urgent to less urgent |
| FileSelection.LeftOutIsNotUrgent | backend/app/services/prompt_builder.py:216-217 | no file that the limit on files leaves out is more urgent than a candidate |
| FileSelection.SelectionExactly | backend/app/services/prompt_builder.py:218-230 | exactly which candidates are selected and how many characters of each: what the ones before it leave, at most 4000 |
| PromptBuilder.GroupsFit | backend/app/services/prompt_builder.py:233-259 | groups are not empty, concatenate to the files and keep both budgets |
| FileSelection.GroupsCloseWhenFull | backend/app/services/prompt_builder.py:245-256 | packing is greedy: a group is closed only where the next file has no place in it |
| PromptBuilder.GroupCount | backend/app/services/prompt_builder.py:233-259 | for k groups, (k - 1) m C <= F C + 2 T m |
| PromptBuilder.BatchesFit | backend/app/services/prompt_builder.py:439-500 | batches hold the selected files in order, keep their budgets, and number between 1 and the bound of the route |
| FileSelection.BatchIsForItsFiles | backend/app/services/prompt_builder.py:465-488 | the measurements of a batch are those of its files, its harness is chosen by both under the route, and its policies by its files and the types of that harness, or are those of the request without retrieval |
| FileSelection.MetricsOneByOne | backend/app/services/prompt_builder.py:469-473 | measurements are picked one by one, in the order they came in |
| PromptBuilder.SecondPassLossless | backend/app/services/prompt_builder.py:154-204 | in the prompt of every batch no patch is cut again, and no file is lost, if and only if the budget is not used up before a last file without a patch |
| PromptBuilder.BoundaryDropsFile | backend/app/services/prompt_builder.py:165-194 | a concrete batch of which the second pass drops a file |
| Rag.RankPolicyChunks | backend/app/services/rag.py:177-222 | the scoring loop, stable descending sort and cut |
| Rag.RetrievePolicies | backend/app/services/review_graph.py:340-369 | the two calls return the eight best of the request's policies and the whole index |
| Rag.TwoStagesLoseNothing | backend/app/services/review_graph.py:349-361 | ranking the search result again equals ranking everything at once, as exact lists |
| Rag.RankedAreBest | backend/app/services/rag.py:177-222 | ranked chunks are the best of the scored ones, and equal scores keep their order |
| Rag.FitsExactly | backend/app/services/rag.py:195-206 | a chunk fits a query if and only if it shares a word with it and is of an asked type, or none is asked for, or it is of the repository |
| Rag.RankedByScore | backend/app/services/rag.py:220-222 | higher scores come first, and what is left out scores no higher |
| Rag.RepositoryComesFirst | backend/app/services/rag.py:205-208 | a fitting chunk of the repository is never behind another chunk of at most a hundred words |
| Rag.RepositoryCanBeOutranked | backend/app/services/rag.py:205-208 | with a query that has all of its 122 or more words another chunk comes before one of the repository |
| Rag.MarkdownSplitter.Flush | backend/app/services/rag.py:116-141 | the closure appends the chunks of the open section and empties the buffer; its loop ends |
| Rag.MarkdownSplitter.Split | backend/app/services/rag.py:99-158 | the reader with its buffer and closure yields the chunks of the sections in document order |
| Rag.PiecesConserve | backend/app/services/rag.py:125-141 | pieces are non-empty, all but the last of full length, and concatenate to the text |
| Rag.SectionIsConserved | backend/app/services/rag.py:116-141 | a normative, non-blank section is conserved under its heading, any other yields nothing |
| Rag.SectionsAreDocument | backend/app/services/rag.py:142-158 | headings and section lines put together are the document, each section under the nearest heading before it |
| Rag.HeadingMeans | backend/app/services/rag.py:145-149 | a heading is a line with hashes in front; its title is what follows them, or the file name |
| Rag.PiecesAre | backend/app/services/rag.py:125-141 | the i-th piece is the i-th part of the text, typed by what is left of it |
| Rag.ChunksOfDocument | backend/app/services/rag.py:99-158 | the chunks of a document are those of its sections, the first under the name of the file |
| PolicyHarness.JoinedSearch | backend/app/services/policy_harness.py:211-222 | searching the joined texts equals searching file by file for all texts, if and only if the marker is not empty and holds no newline |
| HarnessChoice.MarkerMeans | backend/app/services/policy_harness.py:211-222 | a marker of small letters, digits and underscores is found where none of these touches it, any other marker anywhere |
| PolicyHarness.RequirePatchIsImplied | backend/app/services/policy_harness.py:316-349 | whatever the files, the early patch test rejects nothing that the same-file test accepts, if and only if no patch marker is empty or there are no path markers |
| PolicyHarness.RequirePatchIsIdle | backend/app/services/policy_harness.py:349-354 | for a card that needs path and patch in one file, require_patch changes nothing, for all files, if and only if the condition on its markers holds |
| PolicyHarness.TellingSituation | backend/app/services/policy_harness.py:349-354 | for every other such card, the files for which it does |
| PolicyHarness.SelectSkills | backend/app/services/policy_harness.py:243-287 | the loop, sort and cut over the skills |
| HarnessChoice.CandidateExactly | backend/app/services/policy_harness.py:245-258 | a skill is a candidate if and only if it is for the route and always on or signalled |
| HarnessChoice.ScoreOfAlwaysOn | backend/app/services/policy_harness.py:259-265 | an always-on skill scores its priority and a hundred |
| HarnessChoice.ScoreOfOneSignal | backend/app/services/policy_harness.py:259-265 | a signalled one its priority and twenty |
| HarnessChoice.ScoreOfMoreSignals | backend/app/services/policy_harness.py:259-265 | every further matched signal adds twenty, any other nothing |
| HarnessChoice.SkillsByScore | backend/app/services/policy_harness.py:279-287 | the candidates with the highest scores are selected, equal ones by ID, as many as the limit allows |
| PolicyHarness.CollectCards | backend/app/services/policy_harness.py:301-385 | the loop over the knowledge cards keeps the eligible ones |
| HarnessChoice.EligibleExactly | backend/app/services/policy_harness.py:301-385 | read file by file, when a card is eligible and how it scores: twenty a signal, ten a path, ten a patch, five for always |
| PolicyHarness.AllocateCards | backend/app/services/policy_harness.py:386-413 | both allocation loops with their ID set |
| PolicyHarness.Select | backend/app/services/policy_harness.py:224-421 | the signals with those of the measurements, the selected skills, the eligible cards for them, none twice and as many as there are places where the manifest has no ID twice, and the policy types of selected skills and of candidates, sorted and once each |
| HarnessChoice.SignalsAre | backend/app/services/policy_harness.py:230-242 | the signals are those of the diff, that something was measured, and that something got too complex |
| HarnessChoice.SelectedCardsFit | backend/app/services/policy_harness.py:290-300 | every selected card is eligible for the lower-cased paths and patches and the selected skills |
| PolicyHarness.SelectionIsAllocatable | backend/app/services/policy_harness.py:131-207 | unique IDs in the manifest make every selection one the fairness results apply to |
| PolicyHarness.AllocationFillsPlaces | backend/app/services/policy_harness.py:386-413 | no card twice, all eligible, and exactly as many as limit and cards allow; a limit of zero takes one |
| PolicyHarness.EverySkillKeepsItsBest | backend/app/services/policy_harness.py:393-404 | with places for all skills, every skill with an eligible card keeps the one with the highest score, the first ID among equals |
| PolicyHarness.LeftOutRankLast | backend/app/services/policy_harness.py:405-413 | what is left out scores no higher than everything taken in phase two, and among equals has the later ID |
| GraphExecutor.StateGraph.AddEdge | backend/app/services/review_graph.py:86-88 | appends the target to the targets of the source |
| GraphExecutor.Invoke | backend/app/services/review_graph.py:129-149 | where a rank falls along the edges, invoke ends, and what it ran is the leftmost walk of the graph |
| GraphExecutor.WalksAgree | backend/app/services/review_graph.py:129-149 | where no node has two successors, all walks are the same |
| GraphExecutor.LeftmostAgree | backend/app/services/review_graph.py:129-149 | the leftmost walk is determined in any graph |
| ReviewGraph.BuildGraph | backend/app/services/review_graph.py:214-260 | the calls build exactly the review graph |
| ReviewGraph.RunGraph | backend/app/services/review_graph.py:203-212 | a run of the graph with its result taken out |
| ReviewGraph.RunReview | backend/app/services/orchestrator.py:65-91 | a failure is published and handed on, anything else is left alone |
| ReviewGraph.OnlyPath | backend/app/services/review_graph.py:129-260 | the executor's trace is the only path of the review graph |
| ReviewGraph.RunFollowsStages | backend/app/services/review_graph.py:214-260 | stages run in their one order, to the end exactly when no call fails; retrieval or its skip, never both |
| ReviewGraph.NoReadBeforeWrite | backend/app/services/review_graph.py:269-644 | every key that a stage reads was written by the input or an earlier stage |
| ReviewGraph.TerminalDiscipline | backend/app/services/orchestrator.py:65-91 | exactly one terminal event, the last; completed exactly when no call failed; the events are all of the review's or a beginning of them |
| ReviewGraph.AllEventsEnd | backend/app/services/review_graph.py:269-644 | an undisturbed review publishes 13 or 14 + 2B events, the only terminal one at the end |
| ReviewGraph.TerminalKinds | backend/app/services/events.py:104-113 | the bus takes as terminal exactly the two ends of a review |
| LlmMerge.Representative | backend/app/services/review_graph.py:507-515 | the first of the riskiest summaries: "high" above anything else, anything else above "low" |
| LlmMerge.OneRepresentative | backend/app/services/review_graph.py:507-515 | the first of the riskiest summaries is only one |
| LlmMerge.MergeFileSummaries | backend/app/services/review_graph.py:519-524 | the nested loops keep the first summary of every path |
| LlmMerge.MergeAnswers | backend/app/services/review_graph.py:505-559 | findings in batch order, summed tokens and costs under the first answer's provider and model, and one summary with the highest risk, every file once and their number |
| LlmMerge.FindingsKept | backend/app/services/review_graph.py:505-509 | the findings of every batch are in the merged list, unbroken |
| LlmMerge.MergedParts | backend/app/services/review_graph.py:505-559 | merging goes on from left to right: findings and summaries one after the other, usage added up |
| LlmMerge.ChangeTextsAre | backend/app/services/review_graph.py:526-535 | the merged text has every change summary that is not blank, stripped and once |
| LlmMerge.ShortenedMeans | backend/app/services/review_graph.py:536-538 | up to 1600 characters stay, more are cut to 1597 and three dots |
| LlmMerge.MergedSummaries | backend/app/services/review_graph.py:516-547 | one summary per summarised path, the first given, and a text within its limit |
| Publisher.PullRequestComments.DeletePreviousInlineComments | backend/app/services/publisher.py:453-490 | the deletion loop, stopping at the first failed call; an exception it does not expect is handed on |
| Publisher.DeletesInTurn | backend/app/services/publisher.py:470-490 | the marked comments are deleted in turn; the first call that is not answered ends it, and all others stay |
| Publisher.CleansUp | backend/app/services/publisher.py:453-470 | without an answer to the listing nothing is deleted |
| Publisher.PullRequestComments.UpsertIssueComment | backend/app/services/publisher.py:492-536 | the search from the newest comment, the update, and the post where these fail in an expected way |
| Publisher.PullRequestComments.Publish | backend/app/services/publisher.py:338-394 | token, cleanup, inline review, summary and check run, in this order; it ends early with an exception that none of them expects |
| Publisher.PostsInline | backend/app/services/publisher.py:348-367 | the inline comments are posted in one call, and counted only when it was answered |
| Publisher.PostedAre | backend/app/services/publisher.py:348-367 | the i-th posted comment has the i-th text over the marker of its scope |
| Publisher.GetsToken | backend/app/services/publisher.py:624-633 | when a token is asked for, and when there is none |
| Publisher.OthersUntouched | backend/app/services/publisher.py:453-549 | whatever call fails, and in whichever way, no comment of another App or person is changed, deleted or moved |
| Publisher.PublicationSparesOthers | backend/app/services/publisher.py:338-394 | so it is for the whole of publish, with its token and its check run |
| Publisher.CheckRunComesLast | backend/app/services/publisher.py:381 | whether there is a check run, and whether it can be completed, makes no difference to the comments, only to whether publish returns |
| Publisher.TokenComesFirst | backend/app/services/publisher.py:340-347 | without a token no comment is touched; with one the comments are those that all results on comments are about |
| Publisher.OtherScopeUntouched | backend/app/services/publisher.py:94-124 | where no comment and no text mixes the markers, publishing in one scope leaves the own comments of the other alone, whatever call fails |
| Publisher.QuotingCommentIsDeleted | backend/app/services/publisher.py:453-490 | an own comment that quotes the marker of the published scope is deleted |
| ScopeIsolation.InlineIsolationDone | backend/app/services/publisher.py:453-490 | with successful calls the own inline comments of the other scope are kept if and only if none of them carries the published marker and no text to be posted carries theirs |
| ScopeIsolation.InlineIsolation | backend/app/services/publisher.py:453-490 | the same condition is the one under which they are kept for all answers of the calls |
| ScopeIsolation.SummaryIsolationDone | backend/app/services/publisher.py:492-549 | with successful calls the own summaries of the other scope are kept if and only if the summary does not quote their marker and the comment that is updated is none of them, or has this very text |
| ScopeIsolation.SummaryIsolation | backend/app/services/publisher.py:492-549 | they are kept for all answers if and only if the comment to be updated is none of them and neither form of the summary quotes their marker |
| ScopeIsolation.ScopesAreIsolated | backend/app/services/publisher.py:338-549 | both together: publishing in one scope leaves all own comments of the other as they are, for all answers, if and only if both conditions hold |
| Publisher.InlinesReplaced | backend/app/services/publisher.py:338-367 | with successful calls the own inline comments of the scope are exactly the posted ones |
| Publisher.SummaryReplaced | backend/app/services/publisher.py:492-536 | with successful calls and at most one own summary before, exactly one after, with the new text |
| Publisher.SummaryCount | backend/app/services/publisher.py:492-536 | for any replies, how many own summaries there are afterwards: one more exactly when none was updated, no unexpected exception came before the post, and the post was carried out |
| Publisher.RunShowsLastReviews | backend/app/services/publisher.py:338-549 | over any run of reviews and comments of others every scope shows exactly its last review, and the others' comments are as they were with the new ones after them |
| Publisher.OneCommentIffRecognized | backend/app/services/publisher.py:538-549 | two reviews of a scope leave one summary if and only if the service recognizes its own comments |
| Publisher.MarkersApart | backend/app/services/publisher.py:94-95 | no marker contains the marker of the other scope |
| Webhook.KeyIdentifies | backend/app/core/schemas.py:273-287 | for names without separators, keys are equal exactly for the same commit of the same pull request in the same mode |
| Webhook.SeparatorsClash | backend/app/core/schemas.py:273-287 | every request whose provider or owner holds a separator shares its key with a request of another review |
| Webhook.LastPartsDecide | backend/app/core/schemas.py:273-287 | for plain provider, owner and name, keys are equal exactly for the same pull request and the same commit with its mode |
| Webhook.CommitsClash | backend/app/core/schemas.py:273-287 | some commit and mode share the key of a request if and only if its mode is written into its key, or its commit reads as a commit and a mode other than auto |
| Webhook.NamesClash | backend/app/core/schemas.py:273-287 | for plain owners and a commit without a colon, another request shares the key if and only if the mode is written into it or the repository name holds a number after a colon |
| Webhook.KeyIdentifiesAnyName | backend/app/core/schemas.py:273-287 | with the two modes there are, and a commit that holds no colon and is not the word of the deep mode, keys are equal exactly for the same review, whatever the repository is called |
| Webhook.MakePlan | backend/app/services/github_app.py:366-536 | a plan is ready exactly when it has requests, has some only on an event that starts reviews in the configured mode, in deep mode exactly on the button, and none on the service's own checks |
| Webhook.CollectRequests | backend/app/services/github_app.py:456-473 | the loop over the pull requests of a check, raising where one of them does |
| WebhookDeliveries.PlannedAreFor | backend/app/services/github_app.py:456-595 | every planned request is for the repository and installation of the payload and for the number and head commit of the pull request that the event or GitHub gives |
| WebhookDeliveries.StartsExactly | backend/app/services/github_app.py:366-536 | what is reachable is planned if and only if the event starts reviews and has a pull request, and then all of its pull requests are |
| Webhook.DeepOnlyOnRequest | backend/app/services/github_app.py:479-536 | deep mode arises exactly from the deep review button on the service's own check run, and reports to it |
| Webhook.OwnCheckStartsNothing | backend/app/services/github_app.py:443-451 | with an App ID set, the service's own checks start nothing, in every mode |
| Webhook.SuiteStartsUnlessOwn | backend/app/services/github_app.py:415-477 | a completed suite starts reviews if and only if it is not recognized as own |
| Webhook.WebhookTask.Handle | backend/app/main.py:118-196 | a delivery adds to the store exactly the keys of the specification |
| WebhookDeliveries.DeliveryAddsExactly | backend/app/main.py:136-180 | exactly which keys a delivery adds, by what fails |
| WebhookDeliveries.NewKeysInOrder | backend/app/main.py:141-180 | where nothing fails, the new keys in their order |
| WebhookDeliveries.PushAddsItsCommit | backend/app/core/schemas.py:273-287 | a reviewed push adds the key with its repository, number and commit, unless that is there |
| WebhookDeliveries.NextPushIsReviewed | backend/app/main.py:141-151 | after a stored review the next push of the same pull request adds its own key if and only if it has another commit |
| Webhook.DuplicateExactly | backend/app/main.py:136-151 | whichever of its reviews fail, a delivery never stores a key twice, if and only if no two of its new requests share one |
| Webhook.DuplicateWhenStored | backend/app/main.py:136-151 | where all its reviews are stored, it does not if and only if no two of its new requests share one |
| Webhook.ListedTwiceStoredTwice | backend/app/services/github_app.py:456-473 | a concrete check that lists one pull request twice stores its key twice |
| Webhook.AtMostOnce | backend/app/main.py:136-180 | over any run of deliveries and failures no key is stored twice |
| Webhook.RedeliveryIsIdle | backend/app/main.py:141-151 | a delivery that was dealt with changes nothing when it comes again |
| Webhook.DifferentNumbersDiffer | backend/app/services/github_app.py:456-477 | a check of different pull requests plans requests with different keys |
| WebhookRaces.AloneIsSequential | backend/app/main.py:118-180 | a background task that is let run stores what the sequential handler stores |
| WebhookRaces.RacesExactly | backend/app/main.py:118-180 | over all schedules of deliveries at the same time and all failures of reviews no key is stored twice, if and only if no two new requests of them all share one |
| WebhookRaces.TwinsRace | backend/app/main.py:136-180 | for a delivery that comes twice at the same time, a schedule that stores a review twice |
| Citations.MergeBatches | backend/app/services/review_graph.py:388-425 | the loops over the batches and the fallback to the whole request give the merged policies, skills, cards and policy types |
| Citations.SourcesKnownExactly | backend/app/services/review_graph.py:388-440 | validation knows a policy source if and only if the prompt of some batch has that policy |
| Citations.CardsKnownExactly | backend/app/services/review_graph.py:388-412 | it knows a card if and only if some batch lists it, or none lists any and the whole request has it |
| Citations.SkillsKnownExactly | backend/app/services/review_graph.py:394-425 | the review records a skill if and only if some batch has it, or none has any and the whole request has it, with just their policy types and the signals of the request |
| Citations.CardsAgreeExactly | backend/app/services/review_graph.py:388-412 | known and listed cards are the same if and only if some batch lists a card or the whole request has none |
| Citations.AcceptedCitations | backend/app/services/review_quality.py:194-219 | what an accepted finding cites was offered, and it has a card wherever there is one |
| Citations.OfferedCitationsStay | backend/app/services/review_quality.py:194-219 | a citation of what any batch offered is kept, the policy under an offered name, the card as known |
| CitationLimits.UnlistedCardIsAsked | backend/app/services/review_graph.py:396-412 | a concrete review of which no prompt lists a card and validation asks for one |
| System.NoReviewOverflows | backend/app/services/events.py:32 | a whole webhook review publishes at most 15 + 2B <= 59 events, fewer than the log holds |
| System.NamesOfAllEvents | backend/app/services/review_graph.py:269-644 | the names under which a client hears of an undisturbed review, in order |
| System.ClientSeesTheRun | backend/app/main.py:152-180 | under every interleaving the numbers are 1..n, nothing is cut, and a client gets the run exactly once, with the payloads that were published, without the handler's second failure event |
| CommentLines.CommentsLandInDiff | backend/app/services/review_quality.py:271-300 | the line of a validated finding is the i-th right-side number of its patch, and the i-th reviewable line is that very line of the new file |
| CommentLines.CommentsAndPrompt | backend/app/services/prompt_builder.py:207-230 | the selected patch is a beginning of the whole; the number and the text of the line of a validated finding are read from it if and only if it lies before the cut or the cut line reads as it |
| CommentLines.FittingRequestsShowAll | backend/app/services/prompt_builder.py:207-230 | where the request fits its budgets, every validated finding with a line points at a line of a selected patch |
| CommentLines.CommentsShownExactly | backend/app/services/review_quality.py:271-300 | for a given request, all lines that can be accepted are in a selected patch, whatever the model says, if and only if no diff line of a file that can be commented on is missing there |
| CommentLines.FittingRequestsHideNothing | backend/app/services/prompt_builder.py:207-230 | where the request fits its budgets, none is |
| CommentLines.AcceptedOutsidePrompt | backend/app/services/review_quality.py:271-279 | a concrete finding is accepted on a line that neither reader finds in the only selected patch |

## Left out

- HTTP, tokens, JSON, SQL, threads, clocks, heartbeat timing and logging: calls are answers from an arbitrary environment, the
  store is a sequence of keys, and the lock of the bus makes its operations atomic steps.
- The language model: its answers are arbitrary lists of findings and summaries.
- Prompt texts, markdown rendering, Korean labels, routing scores and the feature extraction; route names are inputs.
- `analyze_diff` and the complexity measurement: the signals and metrics they give are inputs.
- Unicode tables: lower-casing, stripping, word splitting and the Hangul test are functions with the laws of
  `Text.TextLaws` and `Text.WordLaws`; `AsciiText.dfy` shows an instance. The white space and digits of the hunk header pattern are the ASCII ones.
- Line separators other than the newline, NaN confidences, and negative limits in the manifest.
- Tokenisation and the score formula of policies: a chunk's score is a function of the chunk and the query.
- `mask_secrets` is an arbitrary function on patches, applied after cutting.
- The page limit of comment listings: a listing that succeeds is complete.
- The body of the validation loop is four methods instead of one; the exceptions of `float(...)` on a confidence are not modelled.
- Check runs: creating and completing them is modelled only as a call that may raise.
- A stream takes its next snapshot only after its client has received the last one: events that are sent and not yet received are the front of what is pending.
- Two background tasks share nothing but the store: reading its keys, and a review up to its storing, are one step each.
- The values in the workflow state: the graph model keeps which keys are written, not what they hold.
- Real LangGraph: the model is of the fallback executor.
- BuildReviewPromptBatches: the message texts of a batch, with the most findings they ask for, are not modelled.
- Select: titles, instructions, source references and the manifest version are copied and not modelled.

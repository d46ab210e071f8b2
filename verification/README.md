# VibeDigest, verified model

VibeDigest turns videos with captions into summaries. This project models the stateful cores of its backend in
Dafny and proves what they promise over every input, every run and every order of events:

- **Paid entitlements** (`Billing`, `BillingInterval`, `Checkout`): the guarded row updates behind payment events that
  arrive at least once and in any order, and the order of receipt and entitlement writes in the webhook.
- **Podcast discovery** (`Discovery`, `Backfill`, `Rotation`): one run over the sources with its two budgets, its
  early exits and its partial failures, and what whole histories of runs do to a resumable backfill.
- **The queue worker** (`Lease`, `Finality`, `Worker`, `Pipeline`, `Workflow`, `Reuse`): the visibility lease as a timed
  transition system, one delivery of a job, and the processing graph under it, down to the rows of one task.
- **Transcripts** (`Text`, `Punctuation`, `Partition`, `Sentences`, `Merge`, `MergeLaws`, `MergeExample`, `Paragraphs`,
  `Rendering`, `Chunking`): segments to sentences to paragraphs to markdown and back, with one theory of greedy packing
  behind every splitter.
- **Parsers, normalisers and matchers** (`Json`, `Extraction`, `Normalizer`, `Migration`, `WebVtt`, `Keypoints`,
  `KeyPool`).

`dafny verify dfyconfig.toml` checks everything. Code that changes state is a class or a method with loops, tied by
its contract to a specification; the lemmas are about the specification.

How the outside world appears: the clock, provider answers and the failures of database calls are parameters or
nondeterministic choices. In `Pipeline` and `Worker` any database call may fail, carried out or not
(`Refused`, `Unanswered`), and a run may be cancelled wherever it waits; `World.calm` singles out the undisturbed runs.
Times and scores are reals or whole milliseconds.

## What the proofs turned up

Where the code does not keep a promise, a lemma gives the exact condition under which it does.

- `billing_interval` depends on the order of payments. All settled runs over the same events agree on it if and only if
  the payments for the latest period name exactly one interval, or name none and every earlier payment names the one
  that is there already (`BillingInterval.IntervalConvergesIff`).
- A subscription order can be marked completed without its entitlement, if and only if the event names no user or
  carries no period end, its user has no profile, or the profile was not entitled before and every write came after the
  period (`Checkout.ReceiptWithoutEntitlementIff`, `Checkout.ReceiptWithoutEntitlementHappens`).
- A purchase is credited twice if and only if no receipt was recorded before the second working credit write
  (`Checkout.CreditedTwiceIff`).
- A backfill pass completes although listed entries are left if and only if the lister printed nothing, printed no
  list of entries, or its window holds malformed entries only (`Backfill.CompletesEarlyIff`). It happens from every
  cursor and under all settings (`Backfill.CompletesEarlyHappens`).
- Reusing earlier outputs completes a task that lacks some of its own if and only if copying a summary raises after
  another was copied, and by then the script, or for catalog tasks one of the two summaries, is not there
  (`Reuse.SkipsIff`). A user task can lose its script that way (`Reuse.LosesScript`), a catalog task a summary
  (`Reuse.LosesCatalogSummary`).
- In the backfill mode a failing source gets no new timestamp and keeps its place at the front. Every source is still
  checked before the runs have given as many timestamps as there are sources (`Rotation.EverySourceIsChecked`).
- A sentence that the safety net splits is shown by the raw texts of its segments, so that a word which went to the
  next sentence can be shown twice (`MergeExample.SplitRepeatsText`). The merged text shows what the segments show if and
  only if the raw texts of the split sentences are in all what was meant (`MergeLaws.MergedConservesText`).
- The last heartbeat is awaited after a job has ended; its error turns a finished job into a failed attempt, and the
  message of a completed task can be archived as failed (`Worker.TaskWorker.Process`).
- The configuration check `heartbeat interval < visibility timeout` is not enough for exclusive execution: what is
  needed, and enough, is interval + renewal latency + closing time < visibility timeout (`Lease.ExclusionIff`).
- A completed task can be overwritten by a slow worker, if and only if interval + latency reaches the visibility
  timeout, or closing in addition does and a deferral can be as short as interval + latency (`Finality.FinalIff`). As
  deferrals last at least 30 seconds, late closing alone is harmless while interval + latency stays below that.
- The chat migration gets through if and only if PostgreSQL takes every text it writes or converts: JSON that Python
  loads, such as NaN or an escaped NUL, can make it raise (`Migration.ChatMessages.Migrate`). A JSON string in a jsonb
  column that decodes to canonical parts is left as it is.
- The docstring of `extract_first_json_object` speaks of the first complete object: an object in the text is what comes
  out if and only if no brace stands before it (`Extraction.ExtractFindsObjectIff`).
- A time line of a paragraph is stripped again if and only if it starts before one hundred hours
  (`Rendering.TimeLineDroppedIff`).
- The keypoint window's scores reach 0.6 of the threshold if and only if no segment can score from the threshold up to
  that value; so they do for thresholds of at least 0 or at most -5 (`Keypoints.WindowScoresIff`), and they do not for
  thresholds between -5 and -1/140 (`Keypoints.WindowFallsShort`).

## Model

| member | source | states |
|---|---|---|
| `Billing.ProfileTable.UpdateSubscription` | backend/db_client.py:748-800 | the guarded SQL update changes exactly the selected row, as the event's meaning says, NULL logic included; it raises only for an early cancellation |
| `Billing.ProfileTable.RecordCancellation` | backend/db_client.py:755-776 | a cancellation marks the period it names and nothing else; unmatched ones are dropped only if expired or outlived |
| `Billing.RunKeepsMeaning` | backend/db_client.py:753-800 | after any run of deliveries the row is the meaning of the set of accepted events |
| `Billing.CancellationAcceptedIff` | backend/db_client.py:757-776 | a cancellation is accepted if and only if a payment for its period or a later one came before it |
| `Billing.Convergence` | backend/db_client.py:748-800 | once every cancellation was redelivered late enough: pro, the latest paid period, cancelled exactly if that period was cancelled |
| `Billing.OrderAndDuplicationDoNotMatter` | backend/api/routes/webhooks.py:133-185 | two settled runs with the same set of events end in the same entitlement |
| `BillingInterval.IntervalConvergesIff` | backend/db_client.py:786-793 | for every row and event set: all settled runs over it end with the same interval if and only if the latest period's payments name exactly one, or name none and all earlier payments name the one already there |
| `BillingInterval.RunsAreAttainable` | backend/db_client.py:757-800 | the event sets this speaks of are those of all settled runs with a payment |
| `Billing.PeriodEndNeverDecreases` | backend/db_client.py:790-793 | entitlement is monotone over every run |
| `Billing.DeliveryNeverRefillsUsage` | backend/db_client.py:780-785 | redelivered payments never refill usage: what was used in a period is what was granted |
| `Billing.UsageClearedIff` | backend/db_client.py:777-794 | usage is cleared exactly when an accepted payment meets another tier or an expired period |
| `Checkout.Store.HandleCheckout` | backend/api/routes/webhooks.py:93-154 | one delivery of checkout.completed: what becomes of all orders and profiles, with every fault point |
| `Checkout.HandledIsLocal` | backend/api/routes/webhooks.py:93-154 | a delivery touches only the order and the profile it names |
| `Checkout.HandledSubscription` | backend/api/routes/webhooks.py:133-154 | entitlement before receipt: order and profile evolve as a single order and row do |
| `Checkout.HandledPurchase` | backend/api/routes/webhooks.py:126-151 | receipt before credits, and nothing of the profile changes but its credits and its customer link |
| `Checkout.Store.CreditPurchase` | backend/api/routes/webhooks.py:126-151 | the one-time branch with a crash between its two writes |
| `Checkout.Store.ActivateSubscription` | backend/api/routes/webhooks.py:133-154 | the recurring branch with a crash between its two writes; what becomes of the order in every case |
| `Checkout.Store.AddCredits` | backend/db_client.py:738-746 | credits are added to one row, or the failure is swallowed |
| `Checkout.Store.CompleteOrder` | backend/db_client.py:847-884 | only the order of the event is marked completed |
| `Checkout.Store.LinkCustomer` | backend/db_client.py:812-818 | the link is written unless another profile holds the customer; then the violation is swallowed and no row changes |
| `Checkout.CreditedAtMostOnce` | backend/api/routes/webhooks.py:116-151 | with a recorded order and working receipt writes, any number of redeliveries credits at most once, wherever a delivery dies |
| `Checkout.CreditedTwiceIff` | backend/api/routes/webhooks.py:116-151 | in general: credited twice if and only if two credit writes succeed with no receipt before the second |
| `Checkout.EntitledIff` | backend/api/routes/webhooks.py:126-154 | redeliveries leave the profile entitled if and only if it was before, or some accepted attempt wrote the entitlement before the period ended |
| `Checkout.RecordedIff` | backend/api/routes/webhooks.py:114-154 | over any sequence of deliveries to the store an open order is completed if and only if it is recorded and some delivery got past both writes |
| `Checkout.ReceiptWithoutEntitlementIff` | backend/api/routes/webhooks.py:133-154 | over any sequence of deliveries to the store, an order they completed lacks its entitlement if and only if the event names no user or no period, the user has no profile, or was not entitled and every write came after the period; otherwise entitlement precedes receipt |
| `Checkout.ReceiptWithoutEntitlementHappens` | backend/api/routes/webhooks.py:139-154 | under each of these conditions one undisturbed delivery does it |
| `Checkout.RenewalEventuallyRecorded` | backend/api/routes/webhooks.py:133-154 | after one undisturbed delivery the order is closed and later deliveries change nothing |
| `Discovery.Repository.Run` | backend/services/podcast_discovery.py:515-612 | one run: the run's and every source's budget, the books of seen, filtered, linked and queued episodes against the failures, no second link, cursors over settled episodes only, effective passes where nothing fails, which sources were checked and which got a new backfill timestamp |
| `Discovery.Repository.NextSource` | backend/services/podcast_discovery.py:547-611 | one turn of the source loop keeps the books and the rotation |
| `Discovery.Repository.HandleSource` | backend/services/podcast_discovery.py:558-611 | the error handler counts the failure and stamps the source; an undisturbed backfill pass advances |
| `Discovery.Repository.TrySource` | backend/services/podcast_discovery.py:548-607 | the cursor moves only after listing and every consumed episode succeeded; completed exactly on an empty listing, blank output and output without a list included |
| `Discovery.Repository.HandleEpisode` | backend/services/podcast_discovery.py:565-597 | one episode: filtered, linked before, or submitted and linked; what each failure leaves behind |
| `Discovery.Repository.ConsumeEpisodes` | backend/services/podcast_discovery.py:564-597 | every consumed episode is filtered or linked, the loop ends early only on a used-up budget, the second budget check is unreachable |
| `Discovery.Repository.UpsertEpisode` | backend/services/podcast_discovery.py:291-333 | an upsert keeps a link that is there |
| `Discovery.Repository.LinkEpisodeTask` | backend/services/podcast_discovery.py:335-348 | the link is overwritten whatever is there, and it raises exactly if there is no row |
| `Discovery.Repository.MarkSourceChecked` | backend/services/podcast_discovery.py:361-377 | the source carries the newest timestamp |
| `Discovery.Repository.AdvanceBackfillCursor` | backend/services/podcast_discovery.py:379-402 | one row, cursor never negative, completion set or cleared |
| `Discovery.RanNext` | backend/services/podcast_discovery.py:545-612 | what one source adds to the effect of a run |
| `Discovery.PassesStays` | backend/services/podcast_discovery.py:545-612 | what a pass promised about settled episodes stays true while links are only added |
| `Backfill.NeverSkips` | backend/services/podcast_discovery.py:545-612 | over any history of failing and succeeding runs, recent or backfill, with publications at the front: every original entry now before the cursor is linked, or was rejected under the settings of the very run that moved the cursor over it |
| `Backfill.ListedAt` | backend/services/podcast_discovery.py:467-498 | dropping malformed entries only moves the others forward |
| `Backfill.EmptyListingIff` | backend/services/podcast_discovery.py:467-498 | a listing is empty if and only if the lister gave no usable answer or its window holds malformed entries only |
| `Backfill.CompletionIsSound` | backend/services/podcast_discovery.py:598-606 | a completion that is not early leaves every original entry linked or rejected by the run that examined it |
| `Backfill.CompletesEarlyIff` | backend/services/podcast_discovery.py:467-606 | for all playlists, cursors, limits and answers: a pass completes with listed entries left if and only if some are left and the answer was no list or the window holds malformed entries only |
| `Backfill.CompletesEarlyHappens` | backend/services/podcast_discovery.py:598-606 | whenever that condition holds in a backfill, the undisturbed pass does it |
| `Backfill.BackfillCompletes` | backend/services/podcast_discovery.py:546-606 | one more effective pass than entries are left completes the backfill, whatever passes fail in between |
| `Rotation.AheadShrinks` | backend/services/podcast_discovery.py:243-257 | a run that does not reach a source moves every source it stamps from before it to behind it, while sources may drop out of the list |
| `Rotation.EverySourceIsChecked` | backend/services/podcast_discovery.py:243-257 | in both modes, while a source is listed it is checked before the runs have given as many timestamps as there are sources |
| `Rotation.CheckedWithinRuns` | backend/services/podcast_discovery.py:243-257 | so any n runs check it if each of them stamps some source |
| `Rotation.RecentRun` | backend/services/podcast_discovery.py:361-377 | a normal run in the recent mode is such a visit and stamps all it checks |
| `Rotation.BackfillRun` | backend/services/podcast_discovery.py:379-402 | a run in the backfill mode is such a visit and stamps at least what it checks undisturbed |
| `Lease.RunIsSafe` | backend/worker.py:181-209 | whoever holds the message holds it alone and its lease is running |
| `Lease.SlowRun` | backend/worker.py:281-297 | a late renewal followed by a slow close gives two holders |
| `Lease.ExclusionIff` | backend/worker.py:63-92 | exclusive execution in every run if and only if interval + latency + closing < visibility |
| `Finality.FinalIff` | backend/worker.py:181-209 | over all histories of interleaved workers: completed is final if and only if interval + latency < visibility, and closing is in time too or no deferral is shorter than interval + latency |
| `Finality.CompletedStays` | backend/worker.py:221-245 | under those timings a completed task stays completed however the steps of several workers interleave |
| `Finality.LateRenewalLoses` | backend/workflow.py:636-648 | with renewals later than the lease, the unguarded cleanup of a slow worker overwrites a completed task |
| `Finality.LateClosingLoses` | backend/worker.py:160-179 | with late closing and a short deferral, the deferral of one worker cuts the lease of the next short and completion is lost too |
| `Worker.TaskWorker.Process` | backend/worker.py:106-209 | one delivery: what is archived, deferred or left, a heartbeat error after the job included, and that it agrees with the task |
| `Worker.TaskWorker.Dispatch` | backend/worker.py:221-245 | a completed task is not run again, and dispatch ends normally only if the task is completed |
| `Worker.TaskWorker.FailAndArchive` | backend/worker.py:313-331 | archived as failed only after the guarded failure mark |
| `Worker.TaskWorker.Archive` | backend/services/task_queue.py:300-318 | the message is archived once, with the final status of its handoff |
| `Worker.TaskWorker.SetVisibility` | backend/services/task_queue.py:372-385 | the message is visible again after the deferral |
| `Worker.CompletedIsFinal` | backend/worker.py:221-245 | over every delivery history, completed stays completed with the same outputs |
| `Worker.ArchiveIsTruthful` | backend/worker.py:129-176 | over every history: archived completed means task completed, and a completed task has its script and valid summaries if and only if the turn that completed it did not meet the case of `Reuse.SkipsIff`; archived failed means task terminal |
| `Worker.DeliveriesEnd` | backend/worker.py:141-179 | whatever crashes and lost leases came before, the first delivery at or past max_attempts that ends properly archives the message; if all end properly the deferrals add up exactly |
| `Worker.DeferralIsBounded` | backend/worker.py:160-173 | over any history, crashes and lost leases included, the total deferral is at most that of max_attempts - 1 deferrals |
| `Worker.TotalDelayIs` | backend/worker.py:160 | 30, 60, 120, 240 and then 300 seconds each |
| `Pipeline.TaskDb.RunPipeline` | backend/services/job_handlers.py:27-55 | a task that becomes completed has a completed script and, for catalog tasks, valid summaries in both languages if and only if the case of `Reuse.SkipsIff` was not met; undisturbed attempts succeed or fail for good as they should |
| `Pipeline.TaskDb.CheckCache` | backend/workflow.py:107-233 | the cache path: a transcript means a stored script; routed to cleanup, all is there if and only if the condition of `Reuse.SkipsIff` does not hold |
| `Pipeline.TaskDb.CopyOutputs` | backend/workflow.py:150-228 | the copying loop computes its specification, an escaped exception included |
| `Pipeline.TaskDb.CopyOutput` | backend/workflow.py:152-217 | one row of it |
| `Pipeline.TaskDb.Ingest` | backend/workflow.py:283-422 | a transcript is there only with its stored script; the first provider with captions wins; missing captions are recorded |
| `Pipeline.TaskDb.AskProvider` | backend/workflow.py:239-280 | a provider is asked only behind a progress write that went through |
| `Pipeline.TaskDb.RunSummarize` | backend/workflow.py:428-575 | without an error, every language the task needs has a valid completed summary |
| `Pipeline.TaskDb.SummarizeInto` | backend/workflow.py:474-569 | one language: only its row changes, a valid summary is kept |
| `Pipeline.TaskDb.Cognition` | backend/workflow.py:578-619 | no error means complete; short and missing transcripts are errors |
| `Pipeline.TaskDb.Cleanup` | backend/workflow.py:622-648 | the final status follows the errors |
| `Pipeline.TaskDb.UpdateTaskStatus` | backend/db_client.py:197-257 | the status write, refused where the trigger bars a task without captions |
| `Pipeline.TaskDb.FailCaptionTask` | backend/db_client.py:303-310 | refuses completed tasks and tasks with a script; otherwise fails the task and its unfinished outputs |
| `Pipeline.TaskDb.MarkFailedIfNotCompleted` | backend/db_client.py:312-329 | never turns completed into error |
| `Pipeline.TaskDb.EnsureOutputs` | backend/db_client.py:561-571 | every kind asked for has a row, old rows stay |
| `Pipeline.TaskDb.CompleteKind` | backend/db_client.py:573-613 | all rows of the kind hold the content; without one it raises |
| `Workflow.UpsertWrites` | backend/db_client.py:533-559 | the matching row, or a new one, holds the content, and no other row changes |
| `Workflow.CacheIsSound` | backend/workflow.py:134-228 | for every snapshot and every fault: transcript means script; skipping means complete when no exception escaped |
| `Reuse.SkipsIff` | backend/workflow.py:150-233 | over all reused rows, faults and earlier outputs: routed to cleanup with something missing if and only if some summary is the first to fail, another was copied before it, and script or catalog summary is neither copied by then nor there before |
| `Reuse.BrokenOff` | backend/workflow.py:150-217 | what the rows hold when copying breaks off at a summary |
| `Reuse.EscapesIff` | backend/workflow.py:186-228 | copying ends early if and only if some summary fails |
| `Reuse.LosesScript` | backend/workflow.py:160-228 | for every content there is a user task that loses its script |
| `Reuse.LosesCatalogSummary` | backend/workflow.py:200-228 | for every two valid summaries there is a catalog task that loses one of them |
| `Partition.GreedyIsFewest` | backend/services/formatting.py:54-74 | under a rule inherited by stretches, no grouping into runs has fewer groups than the greedy one |
| `Partition.GreedyGroups` | backend/services/formatting.py:54-74 | the greedy groups conserve the elements in order and keep the rule |
| `Sentences.SplitLongSentence` | backend/services/formatting.py:26-76 | the loop with its running sums packs greedily |
| `Sentences.SplitIsOptimal` | backend/services/formatting.py:26-76 | segments conserved, chunks single or within 24 s, 80 units, 20 segments, and as few as possible |
| `Merge.MergeSegmentsIntoSentences` | backend/services/formatting.py:79-177 | the loop computes the fold of its step over the segments, as named by `Merge.Merged` |
| `MergeLaws.MergedIsOutput` | backend/services/formatting.py:79-177 | the sentences are those of the flushes, each of a stretch of the input, in order, and at most one carried over |
| `MergeLaws.MergedCovers` | backend/services/formatting.py:79-177 | every visible segment is in some sentence, sentences are single or within bounds and timed by their segments, starts stay sorted |
| `MergeLaws.FlushesConserveText` | backend/services/formatting.py:118-177 | all visible text reaches the flushes or the carried sentence, in order, for every input |
| `MergeLaws.FitsIff` | backend/services/formatting.py:93-116 | the safety net splits exactly the sentences whose segments break the bounds |
| `MergeLaws.SentencesOfFlush` | backend/services/formatting.py:93-116 | a flush that fits shows exactly its texts, one that is split shows the raw texts of its segments |
| `MergeLaws.MergedShows` | backend/services/formatting.py:79-177 | for every input: what the result shows, flush by flush |
| `MergeLaws.MergedConservesText` | backend/services/formatting.py:79-177 | the visible text is kept exactly if and only if the flushes show in all what was meant; so if every flush fits one sentence, and that whenever the input keeps the bounds |
| `MergeExample.SplitRepeatsText` | backend/services/formatting.py:93-140 | two segments for which it is not: a word is shown twice |
| `Merge.FlushSentence` | backend/services/formatting.py:93-116 | one flush, with the safety net |
| `Merge.PlaceText` | backend/services/formatting.py:142-166 | late cuts carry their rest over, sentence ends flush, other texts stay open: the new state and carry as functions of the old |
| `Merge.MergeEarly` | backend/services/formatting.py:130-140 | early punctuation closes the previous sentence, and the rest is placed on its own |
| `Punctuation.TruePositionsExact` | backend/utils/text_utils.py:82-95 | exactly the sentence ends are found, in order |
| `Punctuation.EarlySplitIff` | backend/utils/text_utils.py:98-113 | an early cut is made exactly after the first sentence end, with at most two units before it |
| `Punctuation.LateSplitIff` | backend/utils/text_utils.py:116-132 | a late cut is made exactly after the last sentence end, with one or two units after it |
| `Punctuation.CutShows` | backend/utils/text_utils.py:98-133 | what precedes a cut is visible |
| `Paragraphs.GroupSentences` | backend/services/formatting.py:230-284 | the loop packs sentences greedily under the gap, length and duration limits |
| `Paragraphs.FewestParagraphs` | backend/services/formatting.py:230-284 | on sentences sorted by start no valid grouping has fewer paragraphs |
| `Paragraphs.ParagraphsConserveText` | backend/services/formatting.py:230-284 | the visible text is kept in order, and every paragraph keeps the limits or is one sentence |
| `Rendering.RenderMarkdown` | backend/services/formatting.py:345-362 | the markdown lines of the paragraphs |
| `Rendering.ExtractPureText` | backend/utils/text_utils.py:289-317 | the kept lines, joined |
| `Rendering.TimeLineDroppedIff` | backend/services/formatting.py:307-319 | a rendered time line is dropped if and only if it starts before a hundred hours |
| `Rendering.KeptUnchangedIff` | backend/utils/text_utils.py:298-315 | a line comes through unchanged if and only if it carries no stamp and no metadata mark |
| `Rendering.StripUndoesRender` | backend/utils/text_utils.py:289-317 | stripping the rendered transcript gives the paragraph texts, joined by blanks |
| `Rendering.FormatMarkdown` | backend/services/formatting.py:322-362 | the markdown is the rendered paragraphs of the merged segments under the limits of the language |
| `Rendering.FormatConservesText` | backend/services/formatting.py:322-362 | end to end: the stripped markdown is the paragraph texts joined by blanks, and shows exactly the visible text of the segments if and only if the flushes show in all what was meant |
| `Rendering.FormatIsFewest` | backend/services/formatting.py:322-362 | segments in order of time give as few paragraphs as any valid grouping of their sentences |
| `Chunking.SmartChunkText` | backend/utils/text_utils.py:397-456 | both passes of the chunker compute greedy packings |
| `Chunking.EnforceParagraphMaxChars` | backend/utils/text_utils.py:251-287 | the paragraph limiter is the same sentence packing on stripped paragraphs |
| `Chunking.PackSentences` | backend/utils/text_utils.py:445-454 | the sentence loop packs greedily |
| `Chunking.SplitSentences` | backend/utils/text_utils.py:430-443 | texts and their marks are put together again |
| `Chunking.ChunksKeepText` | backend/utils/text_utils.py:251-456 | chunking drops and reorders nothing visible |
| `Chunking.ChunksFit` | backend/utils/text_utils.py:425-456 | a chunk exceeds the limit only if it is a single sentence |
| `Chunking.FewestChunks` | backend/utils/text_utils.py:406-454 | no grouping of one packing under the limit has fewer chunks |
| `Chunking.FewestInAll` | backend/utils/text_utils.py:425-456 | no way to cut the chunks of the first pass into groups of sentences gives fewer chunks in the final list |
| `Chunking.SmartIsFewest` | backend/utils/text_utils.py:397-456 | both levels of the chunker together: as few chunks of paragraphs as possible, and of those as few final chunks |
| `Extraction.ExtractFirstJsonObject` | backend/utils/text_utils.py:198-249 | the scanner with its three flags, the fences and the fallback compute the specification |
| `Extraction.FindClose` | backend/utils/text_utils.py:214-237 | the loop finds where the first brace is closed |
| `Extraction.ExtractFindsObject` | backend/utils/text_utils.py:198-249 | every printed JSON object, behind any brace-free text and before anything, is returned whole |
| `Extraction.ValueIsNeutral` | backend/utils/text_utils.py:214-237 | scanning any JSON value inside an object leaves the scanner where it was |
| `Extraction.CleanCutsNoBrace` | backend/utils/text_utils.py:203-206 | stripping and fence removal take no brace away |
| `Extraction.ExtractedAtFirstBrace` | backend/utils/text_utils.py:203-249 | every result stands at the first brace of the text |
| `Extraction.ExtractedIsBraced` | backend/utils/text_utils.py:208-249 | whatever is returned is braced and balanced, or accepted by the parser; no brace, no result |
| `Extraction.ExtractFindsObjectIff` | backend/utils/text_utils.py:208-237 | for all prefixes, objects and suffixes: the object is the result, at its own position, if and only if no brace stands before it |
| `Normalizer.NormalizedIsCanonical` | scripts/migrate_chat_messages_to_parts.py:106-168 | the output holds canonical text parts or preserved typed parts only |
| `Normalizer.NormalizeIsIdempotent` | scripts/migrate_chat_messages_to_parts.py:106-168 | normalising twice is normalising once |
| `Normalizer.JsonLoaderShrinks` | scripts/migrate_chat_messages_to_parts.py:95-99 | for every loader of JSON texts the recursion through embedded texts ends |
| `Normalizer.MeaningFits` | scripts/migrate_chat_messages_to_parts.py:127-139 | a JSON text is at least as long as the rank of its value |
| `Normalizer.NeedsUpdateIff` | scripts/migrate_chat_messages_to_parts.py:354-357 | a row is left alone if and only if it decodes to a list of canonical parts, and then these are its normalised parts to the letter |
| `Normalizer.StoredIsSettled` | scripts/migrate_chat_messages_to_parts.py:354-447 | whatever is stored for a row's parts and read as equal to them needs no further update |
| `Migration.ChatMessages.Scan` | scripts/migrate_chat_messages_to_parts.py:344-381 | keyset pagination looks at every row exactly once and collects the pending updates in order |
| `Migration.ScanStep` | scripts/migrate_chat_messages_to_parts.py:238-264 | one page: the next rows after the key, none only at the end |
| `Migration.PageAt` | scripts/migrate_chat_messages_to_parts.py:240-262 | a page holds the rows after the key and its last row is the next key |
| `Migration.ChatMessages.Apply` | scripts/migrate_chat_messages_to_parts.py:415-447 | the chunked loop writes every update once, or, where a cast raises, nothing |
| `Migration.WritingPending` | scripts/migrate_chat_messages_to_parts.py:415-447 | writing what was collected changes every pending row and no other |
| `Migration.ChatMessages.Convert` | scripts/migrate_chat_messages_to_parts.py:452-463 | the column conversion succeeds exactly if PostgreSQL takes every text |
| `Migration.ChatMessages.Migrate` | scripts/migrate_chat_messages_to_parts.py:344-463 | it gets through if and only if every text it writes or converts can be cast; then every row that reads back as it was sent holds its normalised parts and is left alone by a rescan, otherwise what is left is stated |
| `Migration.AllEndSettled` | scripts/migrate_chat_messages_to_parts.py:421-463 | every row that gets through and reads back ends with its normalised parts and needs no update |
| `Migration.AllFinishIff` | scripts/migrate_chat_messages_to_parts.py:452-463 | a text column can be converted after the updates if and only if every row gets through |
| `Migration.StorableIff` | scripts/migrate_chat_messages_to_parts.py:415-447 | the pending updates can all be stored if and only if every row gets through |
| `WebVtt.ParseVtt` | backend/services/video_processor.py:659-746 | the line loop computes the specification |
| `WebVtt.ParseUndoesPrint` | backend/services/video_processor.py:659-746 | a printed document gives every cue with its times and cleaned lines, in order, with any line ends and with or without a final blank line |
| `WebVtt.PlainCue` | backend/services/video_processor.py:725-739 | a cue of plain lines comes back as those lines, joined |
| `WebVtt.TimingLineIsFound` | backend/services/video_processor.py:683-698 | every printed timing line is read back, short or long, with settings |
| `WebVtt.ClockFor` | backend/services/video_processor.py:675-698 | every time below a hundred hours can be printed |
| `WebVtt.ArrowFreeIsQuiet` | backend/services/video_processor.py:683-685 | a line without an arrow is never taken for a timing line |
| `WebVtt.SplitUndoesLayout` | backend/services/video_processor.py:672 | splitting undoes the file layout |
| `Keypoints.InjectKeypointTimestamps` | backend/services/summarizer/keypoint_matcher.py:73-160 | every keypoint of the array is anchored, version at least 2, nothing happens without segments |
| `Keypoints.FindWindow` | backend/services/summarizer/keypoint_matcher.py:125-146 | argmax and both expansion loops find the window around the earliest best score, if it reaches the threshold |
| `Keypoints.FindBest` | backend/services/summarizer/keypoint_matcher.py:125-128 | the earliest best score |
| `Keypoints.WindowIsUnique` | backend/services/summarizer/keypoint_matcher.py:133-146 | there is only one such window |
| `Keypoints.WindowScoresIff` | backend/services/summarizer/keypoint_matcher.py:133-146 | over all matchers, queries and segments: every window reaches 0.6 of the threshold if and only if no segment can score from the threshold up to that; at least 0 and at most -5 are such thresholds |
| `Keypoints.WindowFallsShort` | backend/services/summarizer/keypoint_matcher.py:128-146 | for every threshold above -5 up to -1/140 a single long word gives a window that does not |
| `Keypoints.AnchoringTwice` | backend/services/summarizer/keypoint_matcher.py:98-154 | injecting twice equals injecting once |
| `Keypoints.ScoreBounds` | backend/services/summarizer/keypoint_matcher.py:234-254 | a verbatim quotation scores 27 to 50, anything else -3 to 20 |
| `Keypoints.VerbatimWins` | backend/services/summarizer/keypoint_matcher.py:234-254 | if any segment quotes the query, the best one does |
| `KeyPool.ApiKeyRotator.constructor` | backend/services/key_rotator.py:14-23 | a fresh pool starts at the first key with nothing cooling |
| `KeyPool.ApiKeyRotator.GetKey` | backend/services/key_rotator.py:25-46 | the first usable key in turn; it raises exactly if all are cooling |
| `KeyPool.ApiKeyRotator.ReportRateLimited` | backend/services/key_rotator.py:48-53 | the key cools down from now on |
| `KeyPool.EveryIdleKeyIsDrawn` | backend/services/key_rotator.py:34-41 | in any n successful draws every key that never cools is drawn |
| `KeyPool.SupadataClient.GetTranscript` | backend/services/supadata_client.py:100-304 | a rate-limited key is not reused within its cooldown, whatever other requests do; the last answer decides; it gives up for rate limits only when the whole pool cools |
| `KeyPool.AllReported` | backend/services/supadata_client.py:302-304 | as many rate-limited attempts as keys leave no key usable |

## Left out

- HTTP, SQL execution, the language models, yt-dlp and the queue extension themselves: their answers are parameters, their failures faults.
- Webhook signatures, authentication, the Coinbase handler, quota checks under concurrency: quota and credit paths are modelled sequentially.
- The legacy period-end and product lookups of the webhook: an event carries its period, its interval and its credits.
- `retry_output` jobs, agent turns and their worker: only `process_video` messages are modelled.
- Deleting a task, which clears the link of its episode, and the status and error columns of an episode.
- Sources that change their limits between runs; the cutoff does move with the clock.
- Merging of provider segments in `get_transcript_async`: the model keeps its key and error handling only.
- `Finality.FinalIff`: deferrals have one lower bound, 30 seconds in the code, whatever the attempt.
- `Lease.ExclusionIff`: renewals, closings and reads take effect at single instants; the queue's clock is the workers' clock.
- `Worker.TaskWorker.Process`: deliveries of one message follow one another, which `Lease` justifies; handoffs are unique per job by an index (supabase/migrations/202607290001_create_video_processing_queue.sql:41-42).
- `Pipeline.TaskDb.Ingest`: titles, thumbnails, durations and language correction are not modelled; they do not reach the status.
- `Workflow.CacheIsSound`: asks that no two scripts of the reused task differ in the case of their locale only; the unique index does not rule that out.
- `Reuse.SkipsIff`: asks the same of all kinds of outputs; so do `Pipeline.TaskDb.CheckCache` and `Pipeline.TaskDb.RunPipeline`.
- `Normalizer.NormalizedIsCanonical`: lone surrogates in JSON strings are replaced, since Dafny characters exclude them; values other than strings, lists and dictionaries are known by their str() only.
- `Migration.ChatMessages.Migrate`: no rows are inserted or deleted meanwhile; nothing is said of a row whose parts PostgreSQL reads as other values than Python, such as numbers it rounds.
- `WebVtt.ParseUndoesPrint`: the text blocks with times rounded to two decimals are not modelled; digits are ASCII.
- `Keypoints.WindowScoresIff`: ranges over all tokenisers; between -1/140 and 0 the words and lengths it counts are not tied to texts of a language.
- `Keypoints.ScoreBounds`: text normalisation and tokenisation are parameters; scores are exact reals.
- Case folding is ASCII only; white space is that of str.isspace.
- The first version of the paragraph grouper, `_group_sentences_into_paragraphs`, is unused and left out.
- `Rendering.FormatMarkdown`: takes segments already read; raw segments that cannot be converted are dropped before it.
- Settings the constructors and `run` reject with ValueError (no keys, non-positive limits): preconditions here.
- Configuration loading, language utilities, output intents and execution policies: small case tables.

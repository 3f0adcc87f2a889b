# Verification model of the Elegance storefront backend

Elegance is a storefront whose catalogue is fed by scraping, reviewed by people, embedded for semantic search and served
through a deterministic and a hybrid search. These Dafny modules model the parts of it whose correctness rests on
protocols and algorithms rather than on one function body, and prove what those parts promise.

| part | modules |
|---|---|
| Embedding rows: a leased job and a cached vector at once, against a catalogue that changes meanwhile | `EmbeddingRows`, `EmbeddingService`, `EmbeddingSafety`, `EmbeddingTheorems`, `EmbeddingProspects`, `EmbeddingSetbacks`, `EmbeddingOutcomes` |
| The ingestion job queue: leases, retries, recovery, cancellation | `JobQueue`, `JobRuns`, `JobTheorems`, `JobOutcomes` |
| Deterministic search: a budgeted, prefiltered, resumable scan | `Ordering`, `CatalogQuery`, `CatalogText`, `CatalogSearch`, `CatalogMatching`, `SearchPaging`, `TypedSearch` |
| Hybrid search: two rankings fused by reciprocal rank, and paged | `HybridFusion`, `HybridTheorems`, `FusionOutcomes` |
| The review workflow and direct catalogue administration | `ReviewWorkflow`, `ReviewTheorems`, `VariantTheorems`, `ReviewOutcomes` |
| The query parser: greedy segmentation and operator attachment | `QueryParser`, `QueryTheorems`, `QueryOutcomes` |
| Sitemap discovery, the fallback rate limiter, the embedding evaluation's budget and nDCG | `SitemapDiscovery`, `SitemapOutcomes`, `RateLimiter`, `EvaluationRun`, `RankingMetrics` |

How the code's form is kept: tables that statements update in place are classes whose methods are proved against
functions of the old contents (`EmbeddingTable`, `JobTable`, `ReviewDesk`, `Limiter`, `Meter`); loops are methods with loops,
proved against recursive functions; pure code is functions. What such a function means is stated apart from it: the
modules named after outcomes, and `CatalogMatching`, say in columns, kinds, ranks and plain numbers what each operation
does, and prove that the functions do that. Whole-run statements are about sequences of actions, one action for each
database transaction (so `process` and `process_next_job` are several), interleaved with edits of the catalogue, crashes
and the passing of time in any order.

## What the proofs found

Where the code and its own documentation disagree, the model follows the code.

- The docstring of `process` says it never raises for source problems. A text that becomes unrepresentable while the
  provider is working raises out of the closing transaction, which records nothing (`EmbeddingSetbacks.RaisedHappens` is
  such a run). The row then stays exactly as it is, lease and all, until an edit removes it or another worker comes after
  the lease has expired (`EmbeddingSetbacks.RaisedRowWaits`). It takes an edit between the worker's load and its closing
  transaction (`EmbeddingSetbacks.RaiseNeedsAnEdit`).
- `search_batch` says its predicates only ever narrow to a superset of the true matches. The name "Shawl 4,000" normalises
  to the words shawl and 4000, but the stored column does not contain 4000 (`SearchPaging.ThousandsCommaIsMissed`). For one
  query `SearchPaging.PagingIsExactIff`, and for everything that can be typed `TypedSearch.EveryQueryPagesIff`, give the
  exact condition under which paging returns the whole ranking. A catalogue of ASCII texts in which no comma stands between a
  digit and exactly three digits always meets it (`SearchPaging.PlainCatalogueIsExact`), and so does every query without
  free words.
- A live owner can be unable to become searchable in an index until the catalogue changes again.
  `EmbeddingProspects.SearchableAgainIff` says exactly when: the row of its present representation failed or went stale, or
  it is on its last attempt and the worker holding it is about to settle, raised, crashed, or has yet to call a provider
  that does not fit. Editing a text, embedding the new one and editing back at the same revision is one way to get there
  (`EmbeddingSetbacks.RevertedTextIsSpent`, with a run from the empty table in `EmbeddingSetbacks.RevertedTextHappens`). Such
  an owner shows no wrong vector; it shows none.
- The activation guard reads one staged row of a product. It is sound only because no two staged rows share a product
  (`ReviewTheorems.SharedProductWouldLeak` shows the store where it would fail; `ReviewTheorems.RunKeepsInv` that no run reaches it).
- The test `op in used` in `parse_query` never succeeds (`QueryParser.UsedIsLocal`).

## Reading the model

- Identifiers are numbers. Row ids, product ids and lease owners are fresh where the code draws a UUID. `process` accepts
  a lease owner of the caller's choosing, which nothing in the repository passes; the model always draws one.
- SHA-256 and the idempotency key are collision-free constructors. A vector is a record of who made it from which text.
- There is one embedding table per kind; a run is about one of them. Catalogue edits replace the catalogue by any other
  whose foreign keys are intact, including the representation version, and deleting an owner deletes its rows.
- Time only moves forward. Embedding rows are stamped by the database; job times come from each process's own clock, and
  one clock is assumed for all workers. `FOR UPDATE SKIP LOCKED` lets a claim take any due job and a recovery any subset
  of the expired leases in a run; the methods, where nothing else is locked, take the earliest and all of them.
- Job workers have distinct ids and run one job at a time.
- The runs of the review workflow always have the activation guard on; nothing in the repository turns it off.
- Review: `seen` is the staged row the guard's `LIMIT 1` happens to return, and `accepted` is whether the database's
  remaining check constraints take a product.
- The parser starts from tokens and a vocabulary of non-empty phrases. The sets it sorts into tuples stay sets, and the
  messages in `unsupported` are constructors.
- Between the requests of one paging the catalogue does not change. Columns are matched with ASCII case folding only: the
  database can also fold a few other characters onto ASCII letters, so for columns that are not ASCII the exactness of
  paging is about the model's matching.
- New variants get ids that no variant has.
- A fused score is an integer number of 10^-12, rounded from the exact sum.
- The sitemap of a source is a function from locations to what a fetch yields after its own retries. Each location is
  fetched at most once, so nothing is lost by that.

## Model

| member | source | states |
|---|---|---|
| EmbeddingRows.EmbeddingTable.UpsertPending | apps/backend/repositories/embeddings.py:42-53 | A queued row is inserted exactly when no row has the same owner and identity key; otherwise that row is returned whatever its status and nothing changes |
| EmbeddingRows.EmbeddingTable.Claim | apps/backend/repositories/embeddings.py:56-74 | Only a due queued row or an expired lease with attempts left is taken, with one more attempt; an expired lease without attempts left becomes failed; nothing else changes |
| EmbeddingRows.EmbeddingTable.Finish | apps/backend/repositories/embeddings.py:96-109 | Only the current lease holder's row is settled, as failed, stale or queued after the delay; otherwise nothing is written |
| EmbeddingRows.EmbeddingTable.Complete | apps/backend/repositories/embeddings.py:77-93 | The lease holder's row gets its vector and every other success of that owner in the same index goes stale, in one step; otherwise nothing is written |
| EmbeddingService.ActiveEmbeddings | apps/backend/search/embedding_service.py:131-148 | The rows returned, without repeats, are exactly the searchable ones; a text that cannot be represented drops its row |
| EmbeddingSafety.StepKeepsInv | apps/backend/search/embedding_service.py:60-128 | Every transaction, edit, crash and tick keeps the invariant on rows, identities, leases, workers in flight and the call budget |
| EmbeddingSafety.ClaimKeepsBudget | apps/backend/repositories/embeddings.py:62-74 | A claim keeps provider calls made plus workers yet to call within the attempts of every row |
| EmbeddingSafety.SpendCall | apps/backend/search/embedding_service.py:109-120 | A provider call uses up one call that an attempt of the row had paid for |
| EmbeddingSafety.CompletedKeepsInv | apps/backend/repositories/embeddings.py:77-93 | Completing, with its demotions, keeps the whole invariant, in particular one success per owner and index |
| EmbeddingTheorems.CacheCoherence | apps/backend/search/embedding_service.py:83-148 | After any run, a searchable row holds the vector of the live source's current text under the provider, model and revision asked for |
| EmbeddingTheorems.OneSuccessPerIndex | apps/backend/repositories/embeddings.py:77-93 | After any run, no two succeeded rows share an owner and version tuple |
| EmbeddingTheorems.EveryRowStep | apps/backend/repositories/embeddings.py:56-109 | Every change of a row by any step is a claim, a settlement or completion by its lease holder, or a demotion |
| EmbeddingTheorems.PublishedOnlyWhenCurrent | apps/backend/search/embedding_service.py:122-128 | A row turns succeeded only in its lease holder's closing transaction, while the live source is the one it was made for, with that text's vector |
| EmbeddingTheorems.FencedWritesNothing | apps/backend/repositories/embeddings.py:80-86 | No step of a worker that lost its lease changes the table |
| EmbeddingTheorems.FencedForever | apps/backend/repositories/embeddings.py:77-109 | A worker that lost its lease never changes the table again, whatever run follows |
| EmbeddingTheorems.ReclaimFences | apps/backend/repositories/embeddings.py:67-74 | Re-claiming an expired row fences its previous holder and gives the lease to the new one |
| EmbeddingTheorems.AttemptsBounded | apps/backend/search/embedding_service.py:109-119 | After any run, provider calls for a row are at most its attempts, which are at most max_attempts, and a queued row has attempts left |
| EmbeddingTheorems.AttemptsCountClaims | apps/backend/repositories/embeddings.py:69-73 | Over any run, a row's attempts grow by exactly the number of claims of it, and max_attempts stays |
| EmbeddingTheorems.ClaimsAreBounded | apps/backend/repositories/embeddings.py:56-74 | Over any run a row is claimed at most max_attempts times |
| EmbeddingTheorems.OutcomesAreFinal | apps/backend/repositories/embeddings.py:88-109 | Failed and stale rows are never changed again; a success can only be demoted to stale |
| EmbeddingProspects.UndisturbedCallSucceeds | apps/backend/search/embedding_service.py:83-128 | A claimable row that matches the live source is searchable after one undisturbed call with a fitting provider, which changes nothing else but older successes |
| EmbeddingProspects.PromisingPublishes | apps/backend/search/embedding_service.py:99-128 | A worker that holds the current row and can complete it publishes the row when left alone, from whichever transaction it has reached |
| EmbeddingProspects.LostIsUnsearchable | apps/backend/repositories/embeddings.py:42-109 | Once the row of the current representation is lost, no run without catalogue edits makes the owner searchable in that index |
| EmbeddingProspects.SearchableAgainIff | apps/backend/search/embedding_service.py:60-128 | In every reachable state, some run without catalogue edits makes a live owner searchable in an index exactly when the row of its current representation, if there is one, is not lost |
| EmbeddingSetbacks.RevertedTextIsSpent | apps/backend/repositories/embeddings.py:87-92 | Editing a searchable owner's text, enqueueing and embedding the new one and editing back leaves its present text's row stale and the owner blocked |
| EmbeddingSetbacks.RevertedTextHappens | apps/backend/repositories/embeddings.py:42-92 | A concrete run from the empty table that ends so |
| EmbeddingSetbacks.UnrepresentableRaises | apps/backend/search/embedding_service.py:122-128 | The closing transaction raises exactly when the text is no longer representable, and then writes nothing; otherwise the worker has let go of the row |
| EmbeddingSetbacks.RaisedRowWaits | apps/backend/repositories/embeddings.py:62-74 | Over any run, the row of a worker that raised is as it was exactly until an edit removes it or another worker comes to claim it after its lease expired |
| EmbeddingSetbacks.RaiseNeedsAnEdit | apps/backend/search/embedding_service.py:99-128 | Between a worker's load and its closing transaction, only an edit that makes the owner's text unrepresentable can make it raise |
| EmbeddingSetbacks.RaisedHappens | apps/backend/search/embedding_service.py:122-128 | A concrete run from the empty table in which a worker raises holding its row |
| EmbeddingOutcomes.SearchableIsCurrent | apps/backend/search/embedding_service.py:77-80 | A row is searchable exactly when it succeeded, its version columns are the ones asked for, its owner is public, and the owner's present revision, text and version are the row's |
| EmbeddingOutcomes.EnqueueAdds | apps/backend/search/embedding_service.py:60-70 | Enqueueing a public owner with a representable text adds one queued row, due at once, without attempts, lease or vector, unless one with these columns exists; otherwise nothing changes |
| EmbeddingOutcomes.ClaimTakes | apps/backend/repositories/embeddings.py:56-74 | A due row or one whose lease ran out is taken when attempts are left, for one more of them and a lease until now plus its length; an abandoned one without is written off as failed; every other row, and every other claim, is left as it was |
| EmbeddingOutcomes.RefusalOutcome | apps/backend/search/embedding_service.py:109-120 | Claim, load, refused call, settle: a retryable refusal with attempts left leaves the row queued, due after backoff * 2^(n-1) for the n-th attempt, and the worker says so; any other refusal leaves it failed and finished; one call is spent |
| EmbeddingOutcomes.MisfitOutcome | apps/backend/search/embedding_service.py:110-112 | A provider of another identity or dimension fails the row without a call, whatever it would have answered |
| EmbeddingOutcomes.ChangedSourceOutcome | apps/backend/search/embedding_service.py:99-107 | A source that is no longer the row's leaves it failed when the text cannot be represented and stale otherwise, without a call |
| EmbeddingOutcomes.ClosingSucceeds | apps/backend/search/embedding_service.py:122-128 | With the source unchanged, the closing transaction leaves the row succeeded with its vector and no lease, and exactly the owner's other successes of the same version columns stale |
| EmbeddingOutcomes.ClosingGoesStale | apps/backend/search/embedding_service.py:124-126 | With the source changed, it leaves the row stale and drops the vector |
| EmbeddingOutcomes.ClosingTooLate | apps/backend/search/embedding_service.py:125-128 | A worker whose lease is gone writes nothing and reports the lease lost |
| EmbeddingOutcomes.SettlingTooLate | apps/backend/repositories/embeddings.py:106-109 | A worker whose lease is gone settles nothing, and reports what it decided all the same |
| EmbeddingOutcomes.EditOutcome | apps/backend/models/relational_model.py:539-556 | An edit deletes exactly the rows whose owner or product it deletes, and changes no other |
| JobQueue.Clip | apps/backend/repositories/jobs.py:32-33 | An error is kept up to 500 characters, as a prefix |
| JobQueue.JobTable.CreateJob | apps/backend/repositories/jobs.py:53-67 | A job is created exactly when the idempotency key is new; otherwise the one job with that key is returned and nothing changes |
| JobQueue.JobTable.RequeueJob | apps/backend/repositories/jobs.py:70-78 | Exactly a finished job is reset for a fresh life |
| JobQueue.JobTable.ClaimNext | apps/backend/repositories/jobs.py:81-96 | The earliest due job by availability and id, among those allowed, is leased with one more attempt; none is taken exactly when none is due |
| JobQueue.JobTable.Heartbeat | apps/backend/repositories/jobs.py:99-107 | Renews the lease exactly for the owner of a running job |
| JobQueue.JobTable.CompleteJob | apps/backend/repositories/jobs.py:121-134 | Takes effect exactly for the owner of a running job: cancelled if a cancel was asked for, else succeeded |
| JobQueue.JobTable.FailJob | apps/backend/repositories/jobs.py:137-154 | Takes effect exactly for the owner of a running job: cancelled, retried after backoff while attempts remain, or failed |
| JobQueue.JobTable.RecoverExpiredLeases | apps/backend/repositories/jobs.py:157-174 | Every expired lease, and nothing else, is cancelled, failed or returned to the queue after backoff; the count is right and nothing expired is left |
| JobQueue.JobTable.CancelJob | apps/backend/repositories/jobs.py:177-192 | Accepted exactly for an unfinished job: at once when waiting, as a request when running |
| JobRuns.StepKeepsInv | apps/backend/ingestion/worker.py:22-56 | Every operation by workers, administrators and the clock keeps the invariant on jobs, keys, leases and claim times |
| JobTheorems.JobStatesAreCoherent | apps/backend/repositories/jobs.py:53-192 | After any run: attempts within the bound although claiming never tests it, claimable means attempts left, running is having a lease, finished is having a finish time, cancelled is having been asked, and an asked cancel is running or cancelled |
| JobTheorems.OneJobPerKey | apps/backend/repositories/jobs.py:53-67 | After any run, an idempotency key names at most one job |
| JobTheorems.AcceptedCancelWins | apps/backend/repositories/jobs.py:117-192 | From an accepted cancel until a requeue the job never ends in success or failure and its result never changes |
| JobTheorems.EveryChangeIsProgress | apps/backend/repositories/jobs.py:81-192 | A lexicographic measure falls at every step that changes a job, other than heartbeat and requeue, and is unchanged by heartbeat |
| JobTheorems.ChangesAreBounded | apps/backend/repositories/jobs.py:81-192 | Over any run without requeue a job changes at most 6 * max_attempts + 5 times, heartbeats apart |
| JobTheorems.RunsAtMostMaxAttempts | apps/backend/repositories/jobs.py:81-96 | Over any run without requeue, attempts count the claims exactly and never exceed max_attempts |
| JobTheorems.SettleIsFenced | apps/backend/ingestion/worker.py:42-56 | A settle changes the table exactly when the worker still owns its job, at the very attempt it claimed, and never touches another job |
| JobTheorems.OwnersAreWorking | apps/backend/ingestion/worker.py:35-56 | After any run, the owner of a job is the worker working on that attempt of it, or died doing so |
| JobTheorems.DeadWorkersJobWaits | apps/backend/repositories/jobs.py:157-174 | Only recovery or a cancel request changes the job of a dead worker |
| JobTheorems.ClaimsAreSpaced | apps/backend/repositories/jobs.py:36-37 | After any run, claim n + 1 of one life of a job comes at least base * (2^n - 1) seconds after the first, whether attempts failed or their leases expired |
| JobOutcomes.SuccessIsRecorded | apps/backend/repositories/jobs.py:121-134 | The owner's success without a cancel asked leaves the job succeeded with that result, no error, no lease and its finish time, and nothing else changed |
| JobOutcomes.AskedCancelWins | apps/backend/repositories/jobs.py:117-146 | With a cancel asked, success and failure alike leave the job cancelled |
| JobOutcomes.FailureIsRetried | apps/backend/repositories/jobs.py:147-150 | A retryable failure with attempts left leaves the job retrying, due after backoff * 2^(attempts-1), with the first 500 characters of the error |
| JobOutcomes.FailureIsFinal | apps/backend/repositories/jobs.py:149-152 | Any other failure leaves it failed and finished |
| JobOutcomes.RecoveryOutcome | apps/backend/repositories/jobs.py:157-174 | Recovery cancels, fails or retries exactly the running jobs whose lease ran out, by cancel flag and attempts left, and touches no other job |
| JobOutcomes.ClaimOutcome | apps/backend/repositories/jobs.py:81-96 | A claim takes exactly a waiting job that is due and not cancelled: running, one more attempt, lease until now plus its length |
| JobOutcomes.BeatOutcome | apps/backend/repositories/jobs.py:99-107 | A heartbeat renews the lease for the owner and does nothing for anybody else |
| JobOutcomes.WorkerOutcome | apps/backend/ingestion/worker.py:22-56 | Starting, crashing and finding nothing to do change no job |
| JobOutcomes.CancelOutcome | apps/backend/repositories/jobs.py:177-192 | A waiting job is cancelled at once, a running one marked, any other left alone |
| JobOutcomes.RequeueOutcome | apps/backend/repositories/jobs.py:70-78 | Exactly a finished job starts again: queued, due, no attempts, cancel and error forgotten |
| JobOutcomes.CreateOutcome | apps/backend/repositories/jobs.py:53-67 | A new job is queued and due, with no attempt, lease, error or result |
| JobOutcomes.EndsAsLastSettled | apps/backend/repositories/jobs.py:121-192 | Over any run, a job stands succeeded, failed or cancelled exactly when the last step that ended its present life ended it so: its owner's success with no cancel asked, a final failure or spent lease with no cancel asked, or a cancel |
| Ordering.StableSort | apps/backend/search/hybrid.py:59-60 | Stable sorting by a second key after a first yields the lexicographic order of both |
| Ordering.SortOrders | apps/backend/catalog/search.py:76-77 | Sorting items with distinct ids by a total order yields a strictly ordered list |
| CatalogSearch.RestAfter | apps/backend/repositories/products.py:241-244 | Resuming the scan after the k-th candidate leaves exactly the candidates behind it |
| CatalogText.PlainTextsHoldTheirWords | apps/backend/catalog/query.py:20-34 | Texts with no comma between a digit and exactly three digits hold every one of their normalised words as they are stored |
| CatalogSearch.SearchPage | apps/backend/catalog/search.py:83-104 | Whatever the batch size, the loop returns the hits among the candidates it read, cut at the clamped limit, with the right cursor, and reads at most max_scan candidates |
| CatalogMatching.EvaluateFits | apps/backend/catalog/search.py:34-71 | A product is a hit exactly when it is active, fits category, material and words, and an active variant of it alone fits every colour, price, currency and stock wish; the hit lists exactly those variants in order |
| CatalogMatching.SearchedPage | apps/backend/catalog/search.py:83-104 | Every hit of a page is in the catalogue and meets every constraint, and the page lists the fitting ones of the products read in order, up to a limit between 1 and 50 |
| CatalogMatching.FitIsHit | apps/backend/catalog/search.py:60-79 | Every product that fits, with a fitting variant, among the products read is a hit there |
| CatalogMatching.RankIsRight | apps/backend/catalog/search.py:74-77 | The reference ranking holds exactly the products that fit, newest first, the greater id first among equals |
| CatalogMatching.PrefilterPasses | apps/backend/repositories/products.py:215-240 | The prefilter, clause by clause: activity, category, one variant within bounds, stock and currency, and the ASCII words in some column |
| CatalogMatching.EligibleFit | apps/backend/search/hybrid.py:138-154 | The eligible hits are the fitting ones, words apart, of the first max_scan candidates, in order |
| CatalogMatching.FusedPageFits | apps/backend/search/hybrid.py:157-172 | Every hit of every hybrid page is in the catalogue and meets every constraint except the words |
| SearchPaging.PageAdvances | apps/backend/catalog/search.py:97-104 | A page with a cursor ends at some k-th candidate: it holds the hits up to there and the cursor leaves exactly what follows |
| SearchPaging.PagesCoverCandidates | apps/backend/catalog/search.py:83-104 | Following the cursors yields every hit among the candidates once and in order, in at most one request more than there are candidates |
| SearchPaging.PageWithinLimit | apps/backend/catalog/search.py:87 | A page never exceeds the clamped limit |
| SearchPaging.MatchesAreCandidates | apps/backend/repositories/products.py:222-240 | A true match passes the prefilter exactly when it passes the free-text clause |
| SearchPaging.PagingIsExactIff | apps/backend/repositories/products.py:215-244 | The pages concatenate to the one-line ranking of the whole catalogue exactly when every matching product's stored columns hold the query's ASCII words |
| SearchPaging.TextFreePagingIsExact | apps/backend/catalog/search.py:74-104 | A query without free words always pages through exactly its ranking, in at most catalogue size + 1 requests |
| SearchPaging.PlainCatalogueIsExact | apps/backend/repositories/products.py:236-240 | A catalogue of ASCII texts without thousands commas is searched exactly, whatever is asked |
| SearchPaging.ThousandsCommaIsMissed | apps/backend/catalog/query.py:20-30 | The name "Shawl 4,000", normalised by the code's own rules, matches the word 4000 that the prefilter does not find |
| CatalogText.WordsAreTokens | apps/backend/catalog/query.py:25-34 | Every word of an ASCII text, typed on its own, gives that word |
| TypedSearch.TypedIsTokenised | apps/backend/catalog/query.py:25-34 | Whatever ASCII text is typed, the tokens it splits into are what they normalise to |
| TypedSearch.FreeWordsAreUnknown | apps/backend/catalog/query.py:142-197 | A free word of a parsed query is one of its tokens and no phrase of the vocabulary |
| TypedSearch.UnknownWordParses | apps/backend/catalog/query.py:142-197 | A word the vocabulary does not know, typed alone, asks for just that word |
| TypedSearch.EveryQueryPagesIff | apps/backend/repositories/products.py:222-244 | Everything that can be typed pages through its whole ranking exactly when every product on offer has each ASCII word that can be asked for in some stored text; single words typed alone already tell |
| HybridFusion.Fuse | apps/backend/search/hybrid.py:71-81 | The result holds each id of either branch once, with its score by first ranks, strictly ordered by score, time and id |
| HybridFusion.ScoreAll | apps/backend/search/hybrid.py:79 | Each table entry is scored once and nothing else appears |
| HybridFusion.EligibleHits | apps/backend/search/hybrid.py:138-154 | Whatever the batch size, reads the first max_scan candidates and returns their exact matches, in catalogue order |
| HybridFusion.HybridPage | apps/backend/search/hybrid.py:157-172 | One page of the fusion of the two branches over the eligible hits, with the position to continue after; nothing for an unsupported query |
| HybridTheorems.LexicalIsTop | apps/backend/search/hybrid.py:53-61 | The lexical branch is the first k of its candidates by overlap, then newest, and no excluded candidate precedes an included one |
| HybridTheorems.SemanticIsTop | apps/backend/search/hybrid.py:64-68 | The semantic branch is the first k of the hits with a distance by distance, then newest, and no excluded one precedes an included one |
| HybridTheorems.TwoSortsAreOne | apps/backend/search/hybrid.py:59-68 | Two stable sorts and a cut give the top k of one lexicographic order |
| HybridTheorems.Dominance | apps/backend/search/hybrid.py:48-50 | For branches up to 200, better in one branch and no worse in the other means a strictly greater rounded score |
| HybridTheorems.ScoreIsProper | apps/backend/search/hybrid.py:122 | For branches up to 200, every score in a fused list lies strictly between 0 and 1, as reading a cursor back requires |
| HybridTheorems.DominantPrecedes | apps/backend/search/hybrid.py:71-81 | In the fused list a product that no branch ranks worse than another precedes it |
| HybridTheorems.FusionIsUnique | apps/backend/search/hybrid.py:71-81 | The two branches determine the fused list |
| HybridTheorems.FusedPagesAreExact | apps/backend/search/hybrid.py:168-172 | From any position, the pages concatenate to exactly what is left of the fused list |
| HybridTheorems.AllFusedPages | apps/backend/search/hybrid.py:157-172 | From the start, the pages concatenate to the fused list without loss or repeat |
| HybridTheorems.EligibleAreDistinct | apps/backend/search/hybrid.py:138-154 | No product is eligible twice |
| HybridTheorems.FusedAreEligible | apps/backend/search/hybrid.py:164-167 | Every fused product passes all hard filters of the query |
| FusionOutcomes.ScoreOfTwo | apps/backend/search/hybrid.py:48-50 | At ranks i and j of the two branches the score is 10^12 * (1/(60+i) + 1/(60+j)) to the nearest integer |
| FusionOutcomes.ScoreOfOne | apps/backend/search/hybrid.py:48-50 | In one branch alone, at rank i, it is 10^12 / (60+i) to the nearest integer |
| FusionOutcomes.FusedAreRanked | apps/backend/search/hybrid.py:71-81 | The fused list holds every product of either branch once, and no other |
| FusionOutcomes.FusedOrder | apps/backend/search/hybrid.py:80 | Higher scores first, then the newer product, then the greater id |
| FusionOutcomes.BranchesWeighTheSame | apps/backend/search/hybrid.py:71-81 | Exchanging the branches changes no score |
| FusionOutcomes.SwappedRanksTie | apps/backend/search/hybrid.py:71-81 | Two products with each other's ranks tie, and the newer stands first |
| FusionOutcomes.LexicalBranch | apps/backend/search/hybrid.py:53-61 | The lexical branch holds eligible hits sharing a word with the query, or any when it has none, by number of shared words and then newest first, at most k |
| FusionOutcomes.LexicalLeavesOut | apps/backend/search/hybrid.py:53-61 | A hit it could hold is left out only when it is full and every hit in it is better |
| FusionOutcomes.SemanticHit | apps/backend/search/hybrid.py:64-68 | The semantic branch holds only eligible hits that have a distance |
| FusionOutcomes.SemanticOrder | apps/backend/search/hybrid.py:64-68 | By distance, then newest first |
| FusionOutcomes.SemanticLeavesOut | apps/backend/search/hybrid.py:64-68 | A hit with a distance is left out only when the branch is full and every hit in it is nearer or ties and is newer |
| FusionOutcomes.SemanticBranchOutcome | apps/backend/search/hybrid.py:166 | A search without semantics fuses no semantic branch; with it, an eligible hit the answer gives a distance is in the branch or the branch is full |
| FusionOutcomes.FusedPageOutcome | apps/backend/search/hybrid.py:168-172 | A page holds at most the limit of items behind the position, and says where to go on exactly when it leaves one of them behind |
| FusionOutcomes.LeftForLater | apps/backend/search/hybrid.py:171-172 | The place to go on from is that of the page's last item, and everything left behind comes after it |
| FusionOutcomes.TiesGoToEven | apps/backend/search/hybrid.py:50 | Halfway between two twelfth decimals the even one is taken |
| ReviewWorkflow.ReviewDesk.StageProduct | apps/backend/repositories/staged.py:76-123 | Creates exactly for an unseen source record; else judges the change, and only a row pending review takes new content |
| ReviewWorkflow.ReviewDesk.Transition | apps/backend/repositories/staged.py:127-140 | Moves exactly when the workflow allows it from the current status, and records the move |
| ReviewWorkflow.ReviewDesk.SetStateUnlessArchived | apps/backend/repositories/products.py:157-162 | Changes exactly a product that exists and is not archived |
| ReviewWorkflow.ReviewDesk.Reject | apps/backend/repositories/staged.py:143-149 | Needs a reason of three characters after stripping and a permitted move; a refusal changes nothing |
| ReviewWorkflow.ReviewDesk.Approve | apps/backend/repositories/staged.py:164-187 | Creates the draft product and links it in one step; every refusal leaves all tables as they were |
| ReviewWorkflow.ReviewDesk.Publish | apps/backend/repositories/staged.py:190-198 | Needs an actor, a permitted move and a live product; a refusal undoes the move |
| ReviewWorkflow.ReviewDesk.Unpublish | apps/backend/repositories/staged.py:201-206 | A permitted move withdraws the product to draft unless it is archived |
| ReviewWorkflow.ReviewDesk.Archive | apps/backend/repositories/staged.py:209-214 | A permitted move archives the product with its row |
| ReviewWorkflow.ReviewDesk.CreateProduct | apps/backend/repositories/products.py:87-98 | Needs a variant and a free slug; a refusal changes nothing |
| ReviewWorkflow.ReviewDesk.SetStatus | apps/backend/repositories/products.py:131-141 | With the guard on, activation is refused while the staged row read is not published; otherwise the product changes |
| ReviewWorkflow.ReviewDesk.ReplaceProduct | apps/backend/repositories/products.py:181-212 | Full replacement under the same guard, with a free slug and merged variants; a refusal changes nothing |
| ReviewWorkflow.MergeVariants | apps/backend/repositories/products.py:189-206 | The loop keeps a known variant where it is first named, with its new fields, makes a new one otherwise and drops the rest |
| VariantTheorems.ReplacementIsProper | apps/backend/repositories/products.py:196-206 | A replacement follows the submitted order and fields and never uses a variant id twice |
| VariantTheorems.NamedVariantsSurvive | apps/backend/repositories/products.py:181-206 | Exactly the variants of the product that are named survive, as active as before |
| VariantTheorems.VariantIdsAreUnique | apps/backend/repositories/products.py:87-98 | After any run no two variants share an id, within a product or across products |
| ReviewWorkflow.ReviewDesk.HasUnpublishedReview | apps/backend/repositories/products.py:125-128 | Says what the one row read says, and reads a linked row whenever there is one |
| ReviewTheorems.StepKeepsInv | apps/backend/repositories/staged.py:127-214 | Every action keeps links unique, sources unique, approved rows complete and public products published |
| ReviewTheorems.RunKeepsInv | apps/backend/repositories/staged.py:76-214 | Every run of ingestion, review and administration keeps it |
| ReviewTheorems.NothingPublicUnlessPublished | apps/backend/repositories/products.py:125-162 | After any run, a product linked from a staged row is active only if that row is published |
| ReviewTheorems.WhoMakesPublic | apps/backend/repositories/staged.py:190-198 | An ingested product goes public only by a named person's publish action, or by an administrator while its row is published |
| ReviewTheorems.SharedProductWouldLeak | apps/backend/repositories/products.py:125-128 | With two rows on one product the guard could let an unpublished one's product be activated; the invariant excludes it |
| ReviewTheorems.RunKeepsAudit | apps/backend/repositories/staged.py:37-41 | Over any run the audit trail only grows and stays a faithful account of every row |
| ReviewTheorems.AuditReplays | apps/backend/schemas/ingestion_schema.py:30-43 | A row's recorded moves form a chain from pending review, each link permitted, ending at its current status |
| ReviewTheorems.ReviewedContentIsFrozen | apps/backend/repositories/staged.py:109-123 | Once a row is past pending review, no run changes its draft content |
| ReviewOutcomes.PublishOutcome | apps/backend/repositories/staged.py:190-198 | Refused without a name, a permitted move or a product that is not archived, in this order and without any change; otherwise the linked product, and no other, becomes active and the move is recorded |
| ReviewOutcomes.TakeBackOutcome | apps/backend/repositories/staged.py:201-214 | A permitted unpublish leaves the linked product a draft and a permitted archive leaves it archived, unless it is archived already |
| ReviewOutcomes.RejectOutcome | apps/backend/repositories/staged.py:143-149 | A rejection with a reason of three characters and a permitted move keeps the stripped reason with the row and in the trail, and touches no product |
| ReviewOutcomes.StripTakesOnlySpace | apps/backend/repositories/staged.py:144 | Stripping takes white space off both ends and nothing else |
| ReviewOutcomes.SpaceCharacters | apps/backend/repositories/staged.py:144 | The characters that stripping takes for white space, one by one |
| ReviewOutcomes.ApproveOutcome | apps/backend/repositories/staged.py:152-187 | Each refusal has its own cause, in order, and changes nothing; otherwise one draft product is added, with the draft's name, slug and variants, every variant at the given price and stock, and the row is linked, priced and no longer misses price or stock |
| ReviewOutcomes.FirstScrapeOutcome | apps/backend/repositories/staged.py:88-103 | A record seen first waits for review with nothing decided |
| ReviewOutcomes.RescrapeOutcome | apps/backend/repositories/staged.py:105-123 | Same content changes nothing, a row pending review takes new content, a reviewed row only notes that its source changed |
| ReviewOutcomes.SetStatusOutcome | apps/backend/repositories/products.py:131-141 | Refused when activating past an unpublished review row read, or without the product; otherwise exactly the status and revision change |
| ReviewOutcomes.CreateOutcome | apps/backend/repositories/products.py:87-98 | A created product holds exactly what was submitted, all variants new |
| ReviewOutcomes.ReplaceOutcome | apps/backend/repositories/products.py:181-212 | A replaced product holds exactly what was submitted; a variant is kept when it is the first to name one the product had, and is new otherwise |
| QueryParser.PhrasesCoverTokens | apps/backend/catalog/query.py:120-133 | The phrases, put together, are the tokens |
| QueryParser.PhrasesAreGreedy | apps/backend/catalog/query.py:120-133 | Every phrase is the longest known one at its place, or one token where no known phrase starts |
| QueryParser.ItemsNamePhrases | apps/backend/catalog/query.py:126-132 | Each item names the vocabulary's meaning of its phrase |
| QueryParser.Segment | apps/backend/catalog/query.py:120-133 | The loops compute that segmentation |
| QueryParser.UsedIsLocal | apps/backend/catalog/query.py:154-171 | A number is already used exactly when it ends a range, and its operator never is: the test for it cannot succeed |
| QueryParser.UsedAtEnd | apps/backend/catalog/query.py:188-191 | After the first pass, an operator or range start is unused exactly when no number is attached to it |
| QueryParser.VisitNumber | apps/backend/catalog/query.py:156-175 | A number contributes the clause it states, its text, or the out-of-range reason, and marks what it uses |
| QueryParser.FirstPass | apps/backend/catalog/query.py:152-183 | The first pass gathers the facets, bounds, words and used positions of all items |
| QueryParser.SecondPass | apps/backend/catalog/query.py:184-191 | The second pass reports every negation, operator and range start left over |
| QueryParser.SegmentedNumbersParse | apps/backend/catalog/query.py:136-138 | Every number item really is a number, so reading its amount cannot fail |
| QueryParser.ParseQuery | apps/backend/catalog/query.py:142-197 | The whole parser computes the declarative meaning of its items |
| QueryTheorems.PriceMeansWhatWasSaid | apps/backend/catalog/query.py:192-196 | A price is within the parsed bounds exactly when it meets every price clause that was stated |
| QueryTheorems.OneNumberPerOperator | apps/backend/catalog/query.py:167-175 | A price operator is taken by at most one number |
| QueryTheorems.AcceptedIff | apps/backend/catalog/query.py:184-197 | A query is accepted exactly when every stated amount is in range and no operator, range start or negation is left over |
| QueryTheorems.NothingIsDropped | apps/backend/catalog/query.py:142-197 | In an accepted query every item is accounted for: its constraint is in the result or a number took it |
| QueryTheorems.AllAccountedIsAccepted | apps/backend/catalog/query.py:184-197 | Conversely, when everything is accounted for the query is accepted |
| QueryOutcomes.TokensDenote | apps/backend/catalog/query.py:136-139 | A further digit multiplies a number token by ten and adds itself; a k at the end multiplies it by a thousand |
| QueryOutcomes.OtherTokensAreWords | apps/backend/catalog/query.py:22 | A token with anything but digits, and a k at its end, is no number |
| QueryOutcomes.PhrasesMean | apps/backend/catalog/query.py:126-132 | A phrase of the vocabulary means what the vocabulary says; any other phrase is a single token, a number when it reads as one and a word otherwise |
| QueryOutcomes.MinPriceIsGreatestSaid | apps/backend/catalog/query.py:158-175 | The lower bound is the greatest amount said after a minimum operator, before one, or as the smaller end of a range; there is none when none is said |
| QueryOutcomes.MaxPriceIsLeastSaid | apps/backend/catalog/query.py:158-175 | The upper bound is the least amount said after a maximum operator, before one, or as the greater end of a range; there is none when none is said |
| QueryOutcomes.PriceObeysTheText | apps/backend/catalog/query.py:158-196 | A price is within the bounds exactly when it is at most every capped number, at least every floored number and between the two numbers of every range, whichever way round they stand |
| QueryOutcomes.RefusedForAnAmount | apps/backend/catalog/query.py:161-173 | The amount reason is given exactly when an amount in use exceeds ten million |
| QueryOutcomes.RefusedForALeftover | apps/backend/catalog/query.py:184-191 | Every other reason is given exactly when some item calls for it: a negation without a colour, an operator without a number of its own, half a range |
| QueryOutcomes.FacetsAreNamed | apps/backend/catalog/query.py:176-181 | Categories, materials, wanted and unwanted colours and the stock wish are exactly those named; a colour is unwanted exactly when a negation stands on its side |
| QueryOutcomes.TextIsWhatIsLeft | apps/backend/catalog/query.py:167-183 | The free text is the words and the numbers nothing explains, in the order typed |
| QueryOutcomes.OnlyNoiseIsDropped | apps/backend/catalog/query.py:144 | Exactly stop words and currency words are dropped beforehand |
| SitemapDiscovery.ReadIndex | apps/backend/ingestion/sitemap.py:112-123 | Succeeds exactly for a permitted index within depth; then exactly the product sitemaps are queued one level deeper and the rest counted as ignored |
| SitemapDiscovery.ReadUrlSet | apps/backend/ingestion/sitemap.py:124-139 | Keeps the products, their newest dates and the counters right for every entry read; an error names an entry that is off policy or one path too many |
| SitemapDiscovery.NewestIsLatest | apps/backend/ingestion/sitemap.py:131-135 | The date kept for a path is one of its valid dates and the latest of them, or absent when there is none |
| SitemapDiscovery.DepthIsDistance | apps/backend/ingestion/sitemap.py:104-107 | A location taken from the queue at the last level is exactly one that neither is the root nor is linked from it |
| SitemapDiscovery.Traverse | apps/backend/ingestion/sitemap.py:103-139 | Ends for any link graph, never reads a sitemap twice nor more than max_sitemaps, accounts for all that is linked, and fails only for what is wrong within two links of the root |
| SitemapDiscovery.DiscoverProducts | apps/backend/ingestion/sitemap.py:95-142 | Succeeds exactly when the sitemaps within two links of the root are all permitted, well-formed and not too deep, are few enough and list between one and max_urls products, and has then read just these; each error names its own flaw there |
| SitemapDiscovery.WithinIsClosed | apps/backend/ingestion/sitemap.py:114-122 | When those sitemaps are sound, following links never leads out of them |
| SitemapDiscovery.EndlessIsTooDeep | apps/backend/ingestion/sitemap.py:117-118 | A server that makes up an index for every location is refused for its nesting, or for the number of sitemaps when fewer than three are allowed, and for nothing else |
| SitemapDiscovery.EveryEntryIsCounted | apps/backend/ingestion/sitemap.py:44-49 | Products, duplicates, ignored and queued entries add up to the entries read |
| SitemapDiscovery.DatesAreLatest | apps/backend/ingestion/sitemap.py:128-139 | A discovered product's date is the latest valid one any of its entries gave |
| SitemapOutcomes.AcceptedSource | apps/backend/ingestion/sitemap.py:104-142 | A source is accepted exactly when all sitemaps reached over at most two indexes are readable, list only what the policy allows and nest no deeper, are few enough, and show between one and max_urls product pages |
| SitemapOutcomes.ErrorsAreTrue | apps/backend/ingestion/sitemap.py:109-141 | Each error is about a reached sitemap that does what the error says, or about a count that is really exceeded or zero |
| SitemapOutcomes.FoundIsShown | apps/backend/ingestion/sitemap.py:125-139 | A discovery holds exactly the product pages that reached URL sets show |
| SitemapOutcomes.FoundDates | apps/backend/ingestion/sitemap.py:131-139 | Each has the latest date that any of them gives, or none when none is given |
| SitemapOutcomes.IgnoredAreOther | apps/backend/ingestion/sitemap.py:120-130 | One is counted as ignored for each entry that names neither a product sitemap nor a product page |
| RateLimiter.Prune | apps/backend/security/rate_limit.py:54-55 | What is left of a bucket after dropping old entries is exactly what the window holds of the whole history |
| RateLimiter.Limiter.HitLocal | apps/backend/security/rate_limit.py:51-59 | A request is refused exactly when its own window already holds the limit of accepted ones; only its key changes |
| RateLimiter.RoomMeansOld | apps/backend/security/rate_limit.py:54-58 | When there is room, the request that is `limit` places back has left the window |
| RateLimiter.NeverMoreThanLimit | apps/backend/security/rate_limit.py:51-59 | For one key under a monotone clock, every sixty-second window, wherever it ends, holds at most `limit` accepted requests |
| RateLimiter.Serve | apps/backend/security/rate_limit.py:23-59 | Serving any stream of interleaved keys grants each key what it would be granted alone, and no window of any key ever holds more than its limit |
| RateLimiter.AnsweredByCount | apps/backend/security/rate_limit.py:51-59 | In a stream of interleaved keys a request is accepted exactly when fewer than its key's limit were accepted for that key in the sixty seconds up to it |
| RateLimiter.WindowIsSixtySeconds | apps/backend/security/rate_limit.py:54 | The window counts the accepted times later than now - 60, up to now |
| EvaluationRun.AllChunksCover | evals/run_embedding_eval.py:239 | The batches, put together, are the texts of all segments in order, none is empty or too long, and there are as many as the preflight counts |
| EvaluationRun.EmbedAll | evals/run_embedding_eval.py:236-252 | Stops exactly when the batches do not all fit in the request and cost caps; otherwise returns all answers in order and meters requests, characters and lengths right |
| EvaluationRun.PreflightIsExact | evals/run_embedding_eval.py:267-269 | With anything to embed, the preflight passes exactly when every repeat fits in the caps |
| EvaluationRun.Run | evals/run_embedding_eval.py:259-285 | Only the preflight ever stops a run, before any request; the caps then hold; and a run is ranked exactly when every repeat is usable and every answer had the right length |
| EvaluationRun.RankedVectorsAnswerTheirTexts | evals/run_embedding_eval.py:275-282 | In every ranked repeat the vector at each position answers the text at that position |
| EvaluationRun.CostIsByToken | evals/run_embedding_eval.py:255-256 | The estimate charges one token for every four characters begun, at the price of a million tokens |
| EvaluationRun.RankedByItsAnswers | evals/run_embedding_eval.py:270-280 | A run within budget is ranked exactly when there is something to embed and every answer to every batch has one finite vector of the right dimension for each text; the repeats hold the answers in order |
| RankingMetrics.LeadingIsBest | evals/run_embedding_eval.py:130-131 | Gain is at most that of as many relevant ids in front, with equality exactly when they are in front |
| RankingMetrics.NdcgAtMostOne | evals/run_embedding_eval.py:128-133 | For distinct ranked ids and any positive strictly decreasing weights, DCG is at most IDCG, with equality exactly when relevant ids fill the first min(gold, K) places |
| RankingMetrics.DcgAppend | evals/run_embedding_eval.py:130 | Ranking one more id adds the weight of the place it takes when it is relevant, and nothing otherwise |

## Left out

- Interleavings inside one transaction, isolation levels and SQL itself: each transaction is one atomic step.
- Embedding rows' error texts, retryable flags and timestamps other than availability, lease expiry and finish time.
- Jobs' heartbeat, start, creation and update times; `last_error_retryable`, which not every operation maintains.
- Reuse of a job worker's id after a restart: workers that come back are new workers in the model.
- Products' columns that no modelled rule reads, the price that defaults to the cheapest variant, and single stock updates.
- HybridTheorems.Dominance: the sum is exact before rounding, so the error of floating-point addition is not modelled.
- RankingMetrics.NdcgAtMostOne: the logarithmic weights are any positive strictly decreasing ones.
- Unicode normalisation and tokenising of texts that are not ASCII, vocabulary loading and the canonical colours and materials of free text: a variant carries its set of colours, a product its materials and, when some text is not ASCII, its words.
- The paging and hybrid cursor codecs (JSON, base64url, checksum): cursors are the positions they encode.
- The Redis limiter, which counts fixed windows in a service the model does not contain, and the choice of limit by route.
- Sitemap XML parsing, URL syntax and the source policy itself, the fetch retries, and date parsing.
- The evaluation's fixtures, gates, other metrics, latency and transport retries; an embedder that raises; costs are exact reals.
- Enrichment jobs, attributes, model discovery, scraping, the LLM gateway, sessions, event tracking and the web front end.

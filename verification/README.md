# Verified model of the asset service

The repository downloads game assets named by an Addressables catalog, decodes them in a worker pool with a
decoded-resource cache, verifies the result independently, plans stable keys for publication, and drives all of
it from a durable job ledger with a completion outbox. This project models those parts in Dafny and proves what
they promise each other. `dafny verify dfyconfig.toml` checks everything.

| part | files | main results |
|---|---|---|
| Job ledger and outbox | `JobModel`, `JobInvariant`, `JobRetention`, `JobProperties`, `JobExpiry`, `JobRuns`, `JobTheorems`, `JobStore` | over every run with failed writes and crashes: capacity is reserved, delivery is at least once and in order, scheduling is safe, and every file left behind reopens |
| Admission control | `Admission`, `AdmissionOrder`, `AdmissionPrograms` | no interleaving of any exports deadlocks, timeouts aside; limits hold and nothing underflows |
| Decoded-resource cache | `CacheModel`, `CacheConditions`, `ExportCache`, `CacheSessions`, `MapTotals` | eviction is the shortest LRU prefix; exactly when each call succeeds; making room never fails without a reason; from every opening on the index equals the directory and both limits hold, failing removals and renames apart; cached answers equal decoding |
| Worker pool and verifier | `Reports`, `ExportPool`, `ExportWorker`, `ExportTree`, `ExportVerify`, `ExportAgreement` | every schedule reports every asset once with the same totals; exactly which runs the verifier accepts, and that it refuses a publishable one exactly when the cache failed after publishing; its allowlist is the tree on disk |
| Stable keys | `CaseFolding`, `StableLayout`, `KeyFolding`, `LayoutPlan`, `LayoutCases` | the `__dupN` search ends, planned paths differ up to case, and exactly for which keys equal content is planned once |
| Catalog and planning | `CatalogReader`, `Catalog`, `Assets`, `PlannedPaths` | parsing succeeds exactly on well-formed catalogs within the bounds and finds exactly the reachable locations; selections are least closed sets; plans conserve locations, shrink with selections, and name only paths a verifier accepts |
| Containers | `Usm`, `LegacyAudio`, `Wav` | USM framing is unambiguous and splitting keeps every payload; unmasking is an involution; accepted WAVE files read in bounds |

Shared helpers are `Wrappers`, `Seqs`, `Paths` and `Decimal`.

## How the model relates to the code

- State that the code updates in place is a class (`JobStore`, `Budget`, `Gate`, `Cache`, `Planner`, `Stems`,
  `Reader`); each method is proved against a function of the old state, and the theorems are about those functions.
  Concurrency is a transition system whose steps are the critical sections.
- Clocks, fresh UUIDs, whether a write reaches the disk, cancellation readings and failing file operations are
  parameters of each operation. A persisted rename is one atomic step.
- SHA-256, the serialized length of a completion, a report and a summary, `fingerprint`, regular expressions, UTF-16
  decoding, the Unicode character tables and the decoder are functions of which only the stated assumptions are used
  (`Honest`, `Injective`, `Deterministic`, `Unforged`, `Casing`).
- Release builds wrap on overflow, so the export summary is modelled in 64-bit machine words (`ExportPool.Wrap`);
  the verifier's checked additions are modelled as refusals.

## Where the code does less than one would expect

- `exact_tree` replaces `\` by `/` before it compares names, so on a system where names may hold a backslash it
  accepts a tree that is not the declared one (`ExportTree.BackslashAccepted`). It is exact if and only if no name
  has one (`ExportTree.AcceptedIsExact`). The verifier as a whole is not affected for files, because it then opens
  and hashes every declared file (`ExportAgreement.FilesAreDeclared`).
- A planned key may be longer than `valid_key` allows, because the suffix is added after the check: two contents
  claimed under one valid key are enough (`LayoutCases.LongKeyPlanned`). `StableLayout.VariantValid` says exactly when.
- Lower-casing looks at what follows a capital sigma, and the suffix changes that. So one content claimed under two
  keys that are equal up to case can be planned twice, and is for all keys whose stems or extensions differ up to case
  (`LayoutCases.PlannedTwice`; `KeyFolding.SigmaSplits` gives two). For all other keys it is planned once
  (`KeyFolding.AlikeExactly`, `LayoutPlan.ContentOnce`): always with `lowercase` set (`KeyFolding.LoweredAlike`), and
  always for keys without a capital sigma (`KeyFolding.PlainAlike`).
- The cache index goes on counting what the directory has lost when removing an entry fails after it deleted
  something, while making room or while replacing it, and when renaming the new entry fails after the old one was
  removed. `ExportCache.Cache.Store` says exactly when, by the input alone, and that agreement survives every other
  store; `CacheSessions.StoreTwice` is such a cache for either failure.
- The verifier's root listing refuses a directory that no successful resource owns
  (`ExportAgreement.FailedDirectoryRefused`). When the cache fails after a resource's directory was published, the
  report becomes an error report and the directory stays: storing a decoded resource fails or is cancelled
  (`src/export.rs:636-652`, `src/export_cache.rs:198-204`), or a restored entry cannot be touched
  (`src/export_cache.rs:255-262`). Such an export is refused even within its failure allowance, and an export that is
  publishable otherwise is refused only then (`ExportAgreement.RefusedIffUnkept`; `ExportAgreement.UnkeptRun` is such
  a run, `ExportCache.Cache.Process` and `ExportWorker.Work` say exactly which cache calls are meant).
- Nothing bounds the length of a journal line or of the summary when they are written, but the verifier refuses lines
  over 16 MiB and summaries over 1 MiB; `ExportAgreement.Agreement` has both bounds.
- A finished job is kept by `updated_at`, then id, not by recency of finishing: it stays exactly when fewer finished
  jobs than the limit come later in that order (`JobExpiry.StaysIff`, `JobExpiry.FinishedStays`). When the clock went
  back, a job's own finish can drop it (`JobExpiry.FinishForgotten`).
- An idempotency key answers exactly while a retained job carries it (`JobExpiry.ReplayIff`); after that the same
  request under the same key makes a second job (`JobExpiry.KeyForgotten`).

## Model

| member | source | states |
|---|---|---|
| JobInvariant.WrittenKeeps | src/jobs.rs:501-584 | every ledger any operation writes stays loadable, respects the slot limits, and keeps a free outbox slot for every delivery owed now or later |
| JobInvariant.RecipientsMembers | src/jobs.rs:530-537 | a completion is addressed to exactly the identities configured for its region |
| JobInvariant.RecipientsValid | src/jobs.rs:251-278 | those identities are distinct, well-formed and at most 16 |
| JobInvariant.AnnounceOne | src/jobs.rs:518-557 | when only one job of the edited ledger newly completed, the outbox gains at most that job's delivery |
| JobInvariant.AcknowledgeKeeps | src/jobs.rs:283-299 | removing an acknowledged pair keeps the ledger loadable and never grows the outbox |
| JobInvariant.RetainKeeps | src/jobs.rs:559-574 | dropping old finished jobs keeps the ledger loadable |
| JobRetention.RetainNewest | src/jobs.rs:559-574 | retention keeps every unfinished job, exactly the limit's worth of finished ones, and those are the greatest by (updated_at, id) |
| JobExpiry.StaysIff | src/jobs.rs:559-574 | a finished job stays if and only if fewer finished jobs than the limit have a greater (updated_at, id) |
| JobExpiry.FinishedStays | src/jobs.rs:462-574 | a job survives the commit of its own finish if and only if fewer finished jobs than the limit come after it; otherwise nothing is left under its id |
| JobExpiry.FinishForgotten | src/jobs.rs:462-574 | a store that satisfies the invariant, and a finish on it that succeeds and whose job is gone |
| JobExpiry.ReplayIff | src/jobs.rs:310-334 | a submission under a key replays if and only if a retained job with that request carries it, conflicts if and only if one with another request does, and adds a job otherwise |
| JobExpiry.KeyForgotten | src/jobs.rs:310-334 | from an empty ledger: one key makes a second job after its first was dropped |
| JobProperties.FinishResult | src/jobs.rs:462-500 | the answer of a finish without a capacity check is never `Full` |
| JobProperties.FinishExact | src/jobs.rs:462-557 | from any reachable state a finish is never refused for outbox space, and adds exactly the one delivery the region is owed, or none |
| JobProperties.OutboxStep | src/jobs.rs:283-299 | only finishing adds to the outbox and only an acknowledgement removes from it |
| JobProperties.WrittenJobs | src/jobs.rs:518-584 | a commit removes finished jobs only, down to the retention limit |
| JobProperties.WrittenSteps | src/jobs.rs:501-584 | every written ledger moves jobs and outbox only as its operation may, and keeps the invariant |
| JobProperties.StepEvolves | src/jobs.rs:335-517 | each written job is an old job one legal move on or the newly drawn one; no unfinished job is lost |
| JobProperties.ClaimIsFifo | src/jobs.rs:401-427 | a claim starts the earliest queued job of an idle region, and starts none only if slots are full or every queued region is busy |
| JobProperties.ResubmitIsReplay | src/jobs.rs:310-334 | while a key's job is retained, resubmitting answers from it and changes nothing |
| JobProperties.SubmitTwice | src/jobs.rs:310-392 | the same key adds one job, answers with it, and refuses a different request |
| JobProperties.ReopenSound | src/jobs.rs:164-278 | a sound file is accepted, exactly the jobs in flight fail, and targets that fitted before configure again |
| JobProperties.ReopenEvolves | src/jobs.rs:214-248 | every job after a restart comes from one before it; queued work is all still there |
| JobRuns.FinishConserves | src/jobs.rs:518-557 | a persisted finish keeps the balance of owed, pending and acknowledged deliveries |
| JobRuns.AckConserves | src/jobs.rs:283-299 | a persisted acknowledgement moves its event from pending to acknowledged at the boundary |
| JobRuns.BootKeeps | src/jobs.rs:164-278 | a restart keeps the run invariant, and with the same targets the service comes up |
| JobRuns.StepKeeps | src/service.rs:309-456 | every event of a run, calls, deliveries, crashes and restarts, keeps the run invariant |
| JobRuns.RunsKeep | src/service.rs:309-456 | so does every run |
| JobTheorems.SchedulingSafety | src/jobs.rs:401-500 | in every state of every run: one job in flight per region, at most `max_running` overall, outcome implies completed, failure exactly when failed |
| JobTheorems.StartsFollowSubmissions | src/jobs.rs:401-427 | jobs of one region start in submission order, restarts included |
| JobTheorems.OutboxNeverFull | src/jobs.rs:354-374 | in every state deliveries plus unfinished targeted jobs fit the outbox, so no finish is refused with `Full` |
| JobTheorems.CrashThenReopen | src/jobs.rs:164-278 | whatever file a run leaves, opening accepts it and configuring the last targets succeeds |
| JobTheorems.DeliveredInOrder | src/service.rs:309-371 | for each receiver the acknowledged events are a prefix of those addressed to it, the rest are in the outbox, and none is acknowledged unaccepted |
| JobTheorems.AnnouncedOnce | src/jobs.rs:518-557 | each job ends at most once and is addressed to each receiver at most once |
| JobTheorems.EventDescends | src/jobs.rs:164-584 | every job of a later file descends from the job of that id before, ids being never reused |
| JobTheorems.TerminalForever | src/jobs.rs:428-517 | terminal states are absorbing over whole runs |
| JobTheorems.CancellingNeverCompletes | src/jobs.rs:428-500 | a cancelling job never completes and never yields an outcome |
| JobStores.CheckDelivery | src/jobs.rs:194-213 | the loop over a delivery's identities decides whether it is well-formed |
| JobStores.CheckCompletions | src/jobs.rs:191-213 | the outbox check accepts exactly well-formed deliveries of distinct jobs |
| JobStores.CheckJobs | src/jobs.rs:214-239 | the job check accepts exactly valid jobs with distinct ids and digests, and fails those in flight |
| JobStores.JobStore.Open | src/jobs.rs:164-249 | opening equals the specified function of file, limits and clock, and a file that a valid store left opens as a valid store |
| JobStores.JobStore.ConfigureCompletions | src/jobs.rs:251-278 | configuring accepts exactly valid target lists whose deliveries fit, and keeps the store valid |
| JobStores.JobStore.Commit | src/jobs.rs:518-584 | a commit announces, retains and persists as specified, or changes nothing |
| JobStores.JobStore.AddDelivery | src/jobs.rs:530-556 | one newly completed job adds its delivery, or fails the commit |
| JobStores.JobStore.Enqueue | src/jobs.rs:335-392 | enqueueing checks queue, duplicates and reserved outbox space as specified |
| JobStores.JobStore.Submit | src/jobs.rs:306-309 | submitting performs its action on the state and keeps it valid |
| JobStores.JobStore.SubmitIdempotent | src/jobs.rs:310-334 | likewise with a key |
| JobStores.JobStore.Retry | src/jobs.rs:393-400 | likewise for a failed or cancelled job |
| JobStores.JobStore.Claim | src/jobs.rs:401-427 | likewise for the next runnable job |
| JobStores.JobStore.Mutate | src/jobs.rs:501-517 | clone, edit, stamp and commit one job |
| JobStores.JobStore.Cancel | src/jobs.rs:428-437 | cancelling performs its action and keeps the store valid |
| JobStores.JobStore.ReportProgress | src/jobs.rs:438-458 | reporting progress does too |
| JobStores.JobStore.FinishWithOutcome | src/jobs.rs:462-500 | finishing does too |
| JobStores.JobStore.AcknowledgeCompletion | src/jobs.rs:283-299 | acknowledging does too |
| JobStores.PerformKeeps | src/jobs.rs:518-584 | one call keeps the invariant whether or not the file could be written |
| JobStores.AnnounceFails | src/jobs.rs:520-557 | a delivery that cannot be added fails the whole commit |
| Admission.Weight | src/resource_budget.rs:24-34 | a request weighs at least one and never more than the whole budget |
| Admission.Budget.Poll | src/resource_budget.rs:24-48 | admits exactly when the weight fits, an idle budget admits any size, an oversized request is then alone |
| Admission.Budget.Acquire | src/resource_budget.rs:24-48 | the admission loop returns a live permit of that weight, or the reason it did not |
| Admission.Budget.Release | src/resource_budget.rs:50-56 | dropping a permit gives back exactly its weight and never underflows |
| Admission.Gate.Poll | src/media_gate.rs:15-43 | the counting gate admits exactly below its limit |
| Admission.Gate.Release | src/media_gate.rs:45-55 | dropping gives one back and never underflows |
| AdmissionOrder.StepKeeps | src/resource_budget.rs:24-56 | in every interleaving the live permits of each resource add up to no more than its limit, and every release gives back a live permit; `Admission.Budget` ties the counter to that sum |
| AdmissionOrder.AbandonKeeps | src/export.rs:1486-1524 | errors, cancellations and timeouts at any point unwind in order |
| AdmissionOrder.FindEnabled | src/export.rs:732-747 | a waiting worker leads through ever higher ranks to one that can step |
| AdmissionOrder.NoDeadlock | src/export.rs:732-747 | unfinished work always means some worker can step without relying on a timeout |
| AdmissionOrder.EverySchedule | src/export.rs:1486-1524 | every schedule is finite, and one that cannot be extended has finished all workers with idle gates |
| AdmissionOrder.StuckIsDone | src/export.rs:1486-1524 | if nobody can step, everybody is done |
| AdmissionPrograms.WorkerAbove | src/export.rs:1052-1064 | whatever a worker decodes, its permits nest in strictly increasing rank |
| AdmissionPrograms.FlattenRanked | src/export.rs:1979-1998 | nesting in rank order makes the instruction stream ordered |
| AdmissionPrograms.FreshRanked | src/export.rs:2050-2120 | a fresh thread of any export satisfies the order |
| AdmissionPrograms.MoveKeeps | src/export.rs:2192-2193 | each step and each abandoned step of real export threads keeps the order invariant |
| AdmissionPrograms.InterleavingKeeps | src/export.rs:732-747 | so does every interleaving of any number of exports |
| AdmissionPrograms.NeverBlocked | src/export.rs:732-2193 | any exports, any limits of at least one, errors anywhere: limits hold, somebody can step, every schedule ends idle |
| CacheModel.EvictOldest | src/export_cache.rs:139-173 | the oldest entry left extends the eviction prefix, and every sufficient prefix contains it |
| CacheModel.AllGoneFits | src/export_cache.rs:139-173 | with all others evicted, anything the limits admit fits |
| CacheModel.CopiesMatch | src/export_cache.rs:320-381 | files that match the recorded hashes are the decoder's files |
| CacheModel.RestoredIsDecoded | src/export_cache.rs:213-267 | an accepted entry restores the decoder's report and files |
| CacheModel.SparedSize | src/export_cache.rs:383-390 | what a failing removal leaves of an entry is smaller exactly when a file with anything in it was deleted |
| CacheConditions.ShortestFrom | src/export_cache.rs:139-173 | from any prefix of the eviction order that is not more than needed, a shortest prefix that makes room exists for whatever the limits admit |
| CacheConditions.RoomExists | src/export_cache.rs:139-173 | so room is made whenever the sum stays in 64 bits, the limits admit the request by itself, and neither a cancellation nor a removal interferes |
| CacheConditions.QuietOpens | src/export_cache.rs:119-138 | a directory whose sizes add up in 64 bits opens when nothing interferes |
| CacheConditions.StrikeDecided | src/export_cache.rs:150-170 | at every eviction, the removal that will fail is this one or a later one |
| CacheConditions.HarmMirrors | src/export_cache.rs:139-319 | a failed removal or rename costs agreement exactly when the directory lost something by it |
| ExportCache.Cache.RemoveManaged | src/export_cache.rs:383-390 | removes an entry directory, or leaves those of its files that a failing removal did not get to |
| CacheConditions.CopyExact | src/export_cache.rs:320-381 | a copy is made if and only if nothing is wrong with the records and nothing disturbs it |
| ExportCache.CopyOutputs | src/export_cache.rs:320-381 | the loop copies exactly when every record is safe, distinct, intact and within the total and no reading or operation interferes |
| ExportCache.Cache.MakeRoom | src/export_cache.rs:139-173 | evicts exactly the shortest least-recently-used prefix that makes room, on every outcome; succeeds if and only if the sum stays in 64 bits and that prefix can be removed; fails only for a request beyond a limit or beyond 64 bits, a cancellation, or an entry that cannot be removed, and exactly which entry a failing removal hits |
| ExportCache.Cache.EvictNext | src/export_cache.rs:150-170 | one eviction extends that prefix by the oldest entry, or room cannot be made and the removal that strikes is this one |
| ExportCache.Cache.ScanEntry | src/export_cache.rs:123-136 | one entry is measured and recorded, or scanning cannot succeed |
| ExportCache.Cache.Scan | src/export_cache.rs:119-138 | a scan succeeds exactly when nothing interferes and the total stays in 64 bits, and gives every entry the size of its files and the time of its metadata |
| ExportCache.Cache.ScanAndPrune | src/export_cache.rs:119-138 | opening evicts the shortest prefix by the times on disk, succeeds exactly when scanning and making room do and always when nothing interferes within 64 bits, and leaves an index that equals the directory within both limits; an index that was in order comes back with the same sizes |
| ExportCache.Cache.Restore | src/export_cache.rs:213-267 | exactly when an entry is missed, published and served; it is served as it is stored under the new directory number, touching only its time; accounting and limits are kept |
| ExportCache.Cache.Insert | src/export_cache.rs:268-319 | makes room, stages and places; exactly when it succeeds and which harm it does to which entry; on success the index records the size on disk |
| ExportCache.Cache.Place | src/export_cache.rs:305-319 | replaces the entry and its record together; a failing removal leaves part of the old entry, a failing rename after the removal leaves nothing |
| ExportCache.Cache.Store | src/export_cache.rs:268-319 | exactly when storing succeeds, and always for a storable report when nothing interferes; accounting is lost if and only if a removal fails after deleting something or the rename fails after the old entry is gone; limits are kept always; an oversized resource changes nothing |
| ExportCache.Cache.QuietStores | src/export_cache.rs:268-319 | when nothing interferes, a report that is short enough, described by its files and admitted is stored in an accounted cache |
| ExportCache.Cache.Keep | src/export_cache.rs:188-205 | only reports without errors are stored, and nothing else on disk is rewritten; exactly when it succeeds |
| ExportCache.Cache.Process | src/export_cache.rs:188-205 | the answer is the decoder's up to hit flag and directory number, for any unforged damage; exactly when it succeeds, exactly when it fails although the directory was published, and exactly when it costs agreement |
| ExportCache.Cache.Decode | src/export_cache.rs:198-204 | without an entry the answer is the decoder's, stored unless it reports errors |
| ExportCache.Cache.QuietServes | src/export_cache.rs:188-205 | when nothing interferes, a resource that decodes to something storable is answered |
| CacheSessions.LookUp | src/export_cache.rs:213-267 | the first critical section of processing: whatever it answers is what decoding gives |
| CacheSessions.SaveDecoded | src/export_cache.rs:198-204 | the second: forges nothing and keeps order unless the environment is hazardous |
| CacheSessions.LossIsHazard | src/export_cache.rs:268-319 | only a failing rename, or a failing removal that deletes something, costs agreement |
| CacheSessions.Happen | src/export_cache.rs:119-319 | one event of a session keeps what a session keeps |
| CacheSessions.Session | src/export_cache.rs:119-319 | any interleaving of lookups, saves, damage and restarts stays transparent; from any moment the cache is in order it stays so unless a removal fails after deleting something, a rename fails, or the directory is damaged from outside |
| CacheSessions.StoreTwice | src/export_cache.rs:305-319 | a cache whose second store leaves the index with an entry that lost its metadata, when the removal fails halfway, or is gone, when the rename fails |
| ExportWorker.Work | src/export.rs:635-656 | what a worker sends is a report for its asset; it hears of an unkept resource exactly when the cache failed after publishing |
| CacheConditions.FitsInserted | src/export_cache.rs:285-319 | after making room both limits hold with the new entry |
| CacheConditions.RoomTest | src/export_cache.rs:139-160 | the loop's test, with the replaced entry subtracted, is exactly whether there is room |
| Decimal.FiveDigitsParses | src/export_verify.rs:288-290 | a directory number reads back as itself |
| Reports.TotalsMiddle | src/export.rs:660-677 | it does not matter at which point of the journal a report arrives |
| Reports.TotalsGrow | src/export_verify.rs:299-403 | totals never shrink along a journal |
| ExportPool.Collect | src/export.rs:660-703 | the receive loop computes the exact totals of what it received, wrapped to machine words |
| ExportPool.Record | src/export.rs:661-674 | one report adds its own numbers and nothing else |
| ExportPool.StepKeeps | src/export.rs:616-660 | every number below the counter is with one worker, in the channel or in the journal, once |
| ExportPool.RunKeeps | src/export.rs:616-703 | so in every interleaving |
| ExportPool.EveryAssetOnce | src/export.rs:605-706 | the journal never repeats an asset, the summary is its totals, and without a cancellation it ends complete |
| ExportPool.StepKept | src/export.rs:635-660 | each step keeps that what is published is what succeeded and what the cache gave up on |
| ExportPool.RunKept | src/export.rs:635-660 | so does every interleaving |
| ExportPool.PublishedAtEnd | src/export.rs:635-703 | after a finished run the published directories are those of the successful resources and of the unkept ones, which all have error reports |
| ExportPool.NeverStuck | src/export.rs:606-660 | the bounded channel never blocks the pool: until it is finished some step other than a cancellation is possible |
| ExportPool.EveryScheduleEnds | src/export.rs:605-703 | every schedule is finite and can only end finished |
| ExportTree.ExactTree | src/export_verify.rs:114-152 | the worklist terminates and decides whether all entries fit and the counts match |
| ExportTree.List | src/export_verify.rs:119-146 | one listing accepts, counts and queues exactly its entries |
| ExportTree.ListingStep | src/export_verify.rs:119-147 | replacing a directory by its subdirectories keeps what is left to check; an early refusal refuses nothing more |
| ExportTree.NamesCount | src/export_verify.rs:138-151 | distinct files have distinct paths, so counting files counts paths |
| ExportTree.AcceptedIsExact | src/export_verify.rs:113-152 | for declared paths without backslash: the files are the declared ones, without other entries or fileless directories, if and only if the walk accepts and no name has a backslash |
| ExportTree.BackslashAccepted | src/export_verify.rs:131-138 | a file named `a\b` is accepted in place of a missing declared file |
| ExportVerify.CheckItems | src/export_verify.rs:335-362 | decides whether all outputs are allowed and have distinct paths |
| ExportVerify.CheckOutputs | src/export_verify.rs:323-369 | decides whether a resource's declared outputs are what its directory holds |
| ExportVerify.AddOutputs | src/export_verify.rs:304-389 | the checked running sums stop exactly when the total exceeds its limit |
| ExportVerify.AddLine | src/export_verify.rs:299-399 | a line enters the totals exactly when every limit still holds |
| ExportVerify.Refused | src/export_verify.rs:276-399 | no early refusal refuses a journal that the final comparison would accept |
| ExportVerify.ReadLine | src/export_verify.rs:269-399 | one line is read exactly when it is short enough, well-formed, new and within the limits |
| ExportVerify.ReadJournal | src/export_verify.rs:266-403 | the loop's counters are the exact totals of well-formed distinct lines |
| ExportVerify.Verify | src/export_verify.rs:187-461 | the verifier accepts if and only if summary length, scope, lines, totals and root listing all fit, and returns the successful outputs as allowlist |
| ExportAgreement.FilesAreDeclared | src/export_verify.rs:363-369 | with every declared file hashed, the files of an accepted directory are the declared ones, whatever their names |
| ExportAgreement.AllowlistIsTree | src/export_verify.rs:363-430 | a file with given size and hash is on disk if and only if the allowlist has it |
| ExportAgreement.VerifiedCoversAll | src/export_verify.rs:288-296 | a verified journal covers every resource number exactly once |
| ExportAgreement.ScheduleFree | src/export.rs:660-674 | totals depend on the reports only, not on the schedule |
| ExportAgreement.EverySummaryAlike | src/export.rs:605-706 | two finished runs with the same reports write the same summary |
| ExportAgreement.Agreement | src/export_verify.rs:187-461 | a finished run is accepted if and only if it is retained, of the same open region, nonempty and within the failure allowance, no sum wrapped, summary and lines are short enough, and the root holds the outputs of the successful resources and no other directory |
| ExportAgreement.FailedDirectoryRefused | src/export_verify.rs:416-430 | a run with the directory of a failed resource left below the root is refused |
| ExportAgreement.RootFitsUnlessUnkept | src/export_verify.rs:416-430 | the root listing of a finished run fits if and only if no resource was published and then given up |
| ExportAgreement.RefusedIffUnkept | src/export.rs:635-656 | a finished run that is publishable otherwise is refused if and only if the cache failed for a published resource |
| ExportAgreement.UnkeptRun | src/export.rs:635-656 | such a run of two assets and one worker |
| ExportAgreement.IncompleteRefused | src/export_verify.rs:212-240 | a run whose journal misses an asset is never accepted |
| CaseFolding.FoldBar | src/stable_layout.rs:633 | what stands on two sides of a character that words do not reach across is lower-cased independently |
| KeyFolding.VariantFolds | src/stable_layout.rs:651-665 | a variant is lower-cased as stem, suffix and extension by themselves |
| KeyFolding.SplitKeyFolds | src/stable_layout.rs:651-664 | a lower-cased key splits where the lower-cased stem ends |
| KeyFolding.AlikeExactly | src/stable_layout.rs:632-665 | keys equal up to case ask for the same names if and only if their stems and extensions are equal up to case |
| KeyFolding.PlainAlike | src/stable_layout.rs:632-665 | which holds for keys without a capital sigma |
| KeyFolding.LoweredAlike | src/stable_layout.rs:777-779 | and for keys that were lower-cased before |
| KeyFolding.SigmaSplits | src/stable_layout.rs:632-665 | but not for these two keys |
| KeyFolding.VariantsDiffer | src/stable_layout.rs:632-665 | no two attempts of a claim ask for the same folded key |
| KeyFolding.NamingSeparates | src/stable_layout.rs:632-665 | the naming scheme meets what planning relies on |
| StableLayout.VariantValid | src/stable_layout.rs:610-665 | a suffix keeps every component safe; the variant is valid if and only if its two lengths are within bounds |
| StableLayout.LongKeyOutgrows | src/stable_layout.rs:610-665 | a valid key whose variant is not |
| LayoutPlan.Pigeonhole | src/stable_layout.rs:632-666 | a claim cannot be refused more often than there are keys in use |
| LayoutPlan.Search | src/stable_layout.rs:630-666 | the search ends at the first attempt that is free or holds the same content |
| LayoutPlan.Resolve | src/stable_layout.rs:623-669 | one claim keeps both maps exact, the claims settled and the counters right |
| LayoutPlan.Planner.Claim | src/stable_layout.rs:623-669 | a claim ends at its own content on its own chain, adds at most one entry and alters none |
| LayoutPlan.Planner.ClaimAll | src/stable_layout.rs:775-799 | all keys of a resource are claimed in order, or one is invalid |
| LayoutPlan.Planner.PlanResources | src/stable_layout.rs:726-803 | planning succeeds if and only if all keys are valid and failures are within the allowance, and then claims exactly what was asked for |
| LayoutPlan.AddSettled | src/stable_layout.rs:635-648 | a settled claim stays settled whatever is added |
| LayoutPlan.PathsDistinct | src/stable_layout.rs:620-622 | no two planned paths are equal up to case |
| LayoutPlan.ContentOnce | src/stable_layout.rs:644-650 | equal content claimed under keys that ask for the same names is planned once |
| LayoutPlan.PathsSafe | src/stable_layout.rs:632-648 | planned paths are safe; unrenamed ones are the claimed key |
| LayoutCases.LongKeyPlanned | src/stable_layout.rs:623-669 | two claims on one valid key give a plan with a path that is not a valid key |
| LayoutCases.PlannedTwice | src/stable_layout.rs:623-669 | for all keys equal up to case whose stems or extensions are not: one content claimed under both is planned twice |
| LayoutPlan.Stems.ObjectStem | src/stable_layout.rs:349-371 | an unnamed object gets one numbered stem and keeps it |
| LayoutPlan.Stems.StemsDiffer | src/stable_layout.rs:349-371 | objects numbered in one container and class never share a stem |
| CatalogReader.Reader.PlainString | src/catalog.rs:111-139 | a stored string is read exactly when it is well-formed and within the budget, which shrinks by its length |
| CatalogReader.TextExact | src/catalog.rs:140-163 | a reference can be read if and only if it means something: a stored string, or a chain of at most 256 distinct parts within the text bound, joined in reverse |
| CatalogReader.Reader.Parts | src/catalog.rs:144-160 | the loop over a chain reads it exactly when it is such a chain and fits the budget, so cyclic chains are refused |
| CatalogReader.Reader.String | src/catalog.rs:140-163 | a string is read exactly when the reference means something and what has to be read for it fits the budget, which shrinks by just that |
| Catalog.NamingExact | src/catalog.rs:194-213 | a key row can be read if and only if it has a name or rightly none, and that is what is read |
| Catalog.ParseKeys | src/catalog.rs:186-214 | the table is read exactly when every row can be, within links and budget; the start ids are those of all rows in order, and the index groups the rows of each string key |
| Catalog.ReadIsDescribed | src/catalog.rs:223-237 | a location can be read if and only if the bytes at its id describe it |
| Catalog.MustRead | src/catalog.rs:215-238 | whatever the worklist comes to next belongs to every possible result, so no bound refuses a readable graph early |
| Catalog.OnlyOne | src/catalog.rs:215-246 | there is at most one result |
| Catalog.ParseLocations | src/catalog.rs:215-239 | the worklist ends on any bytes; it succeeds exactly when all reachable ids are locations within the bounds on locations, links and text, and finds exactly those, ascending |
| Catalog.InsertKeeps | src/catalog.rs:238 | inserting a new location keeps ids ascending and adds its links once |
| Catalog.Parse | src/catalog.rs:175-247 | parsing gives a catalog if and only if it is what the bytes say within the bounds; too large files are told apart |
| Catalog.ParsedMeans | src/catalog.rs:175-247 | every location and name of a parsed catalog is what its references mean |
| Catalog.Close | src/catalog.rs:280-287 | the worklist ends at the least set that dependencies do not leave, or no such set is inside the catalog |
| Catalog.MatchRoots | src/catalog.rs:269-276 | the roots that pass the patterns, in order, or an unknown root |
| Catalog.Select | src/catalog.rs:251-297 | a selection is the least closed set of its matching roots in catalog order, and is given exactly when there is one, on any catalog; the errors are told apart, and a sound catalog never gives a catalog error |
| Catalog.ParsedIsSound | src/catalog.rs:175-247 | a parsed catalog has no dangling id |
| Assets.PlanWith | src/assets.rs:100-179 | planning succeeds if and only if all locations classify, providers agree, and no path equals or contains another up to case |
| PlannedPaths.SafeForVerifier | src/assets.rs:80-92 | every path that may be planned is one the verifier of an export accepts |
| PlannedPaths.PlanFor | src/assets.rs:97-179 | under the source's own classification: planning succeeds exactly on plannable catalogs; each planned file is safe and spelled by a location with its provider |
| PlannedPaths.PlannedIsSound | src/assets.rs:100-179 | what is downloaded by a plan meets what an export assumes about its assets |
| Assets.GroupedMeans | src/assets.rs:143-157 | an asset lists exactly the locations of its path, in order |
| Assets.GroupedProvider | src/assets.rs:143-157 | and has their provider |
| Assets.Conserved | src/assets.rs:106-158 | every location is counted exactly once as embedded, logical or in one asset |
| Assets.CheckTree | src/assets.rs:159-173 | the folded-set checks decide whether the paths form a tree up to case |
| Assets.FoldedCount | src/assets.rs:160-166 | comparing sizes detects exactly the paths equal up to case |
| Assets.PlansShrink | src/assets.rs:100-179 | if all locations plan, every part plans to a part of the files from the same providers |
| Assets.SelectionPlans | src/verify.rs:113-122 | so the selection a verifier recomputes always plans, within the full plan |
| Assets.MatchReceipt | src/verify.rs:140-166 | the removal loop accepts exactly receipts that list distinct planned files with their providers |
| Assets.ReceiptComplete | src/verify.rs:140-166 | and such a receipt lists every planned file |
| Usm.ParseSound | src/export.rs:5804-5830 | the chunks read are whole, well-formed, and make up the bytes |
| Usm.ParseConcat | src/export.rs:5804-5830 | well-formed chunks are read back as themselves, so framing is unambiguous |
| Usm.Scan | src/export.rs:5804-5833 | the scan accepts exactly containers of known chunks and notices alpha |
| Usm.RelabelKeeps | src/export.rs:5842-5845 | relabelling keeps everything but the type |
| Usm.SplitAlpha | src/export.rs:5804-5850 | colour is every chunk that is not alpha; alpha is `CRID` and relabelled alpha chunks, in order |
| Usm.HalvesAreWhole | src/export.rs:5800-5850 | both halves are containers again and split to nothing |
| Usm.AlphaPayloads | src/export.rs:5800-5850 | no payload is dropped or altered |
| LegacyAudio.ApplyMask | src/export.rs:5694-5698 | the loop masks exactly the bytes from 0x140 on, restarting the mask |
| LegacyAudio.MaskTwice | src/export.rs:5694-5698 | masking is an involution on every packet |
| LegacyAudio.LegacyStream | src/export.rs:5673-5703 | the stream is the unmasked payloads of the sound chunks, and only whole containers are read |
| LegacyAudio.LegacyRoundTrip | src/export.rs:5671-5703 | a container whose sound was masked reads back as the sound |
| Wav.ValidateWav | src/export.rs:2438-2489 | accepts exactly 16-bit PCM files whose chunks fill the file, with good formats and one data chunk of whole frames |
| Wav.NeverGood | src/export.rs:2457-2482 | a bad format or second data chunk cannot be made good by later chunks |
| Wav.WalkInside | src/export.rs:2416-2434 | in an accepted file the second walk meets only whole chunks and good formats |
| Wav.ValidInBounds | src/export.rs:2416-2434 | in an accepted file every chunk lies inside, and every format chunk with all fields that are read |
| Wav.PcmIdentity | src/export.rs:2416-2434 | accepts exactly valid files, whose chunks all lie inside, and gives the last format with a nonzero whole number of frames |
| Wav.FramesWhole | src/export.rs:2485-2487 | the samples are whole frames of the format that is reported |

## Left out

- HTTP, authentication, TLS, proxies, snapshot fetching, uploads and logging: only "the receiver accepted" is an event.
- `storage.rs` and `update.rs`: publication and the download loop are not part of this model.
- FFmpeg, Unity parsing, CRI decoding, AES, the key schedule of the legacy mask: the mask is any 32 bytes, the decoder any function.
- The exclusive lock on the job directory, and file-system errors other than a write that fails or is lost in a crash.
- Serialization: files hold the values themselves; a corrupt file is one that fails validation.
- JobStores.JobStore.Open: opening a first-schema ledger is modelled only as far as its missing fields read as empty.
- ExportCache.Cache.ScanAndPrune: removing leftover staging directories, and files of other names in the cache directory.
- ExportCache.Cache.Place: a rename is an atomic step, a failing removal leaves any of the files, and directory trees are flat maps from path to content; the recorded time and the file time of an entry may differ as in the code.
- ExportCache.Cache.Process: a decoder that succeeds without errors has published its directory, as it does with outputs retained, which a cache requires.
- ExportPool.StepKeeps: counters of conversions, fallbacks and retries, which nothing verifies, are not in the summary; kind counts are unbounded because the file count that bounds them is wrapped and checked.
- ExportVerify.Verify: re-reading the two receipts to detect concurrent edits, and hashing in blocks, are not modelled; the two receipts are not listed in the allowlist.
- LayoutPlan.Planner.PlanResources: the keys an output asks for, from container, class and cue names, are inputs; only the stems of unnamed objects are modelled. Content types are omitted.
- CaseFolding.FoldBar: the Unicode tables are parameters: lower case of a character, cased, ignorable; what is assumed of them for `.`, `/`, `_`, digits and the letters of `dup` is `KeyFolding.Casing`.
- Catalog.Select: regular expressions are one predicate per location, and validity of the selection is an input.
- Assets.PlanWith: planned assets are a map from path; sorting and prioritizing them is omitted.
- Usm.SplitAlpha: all refusals are one error.
- Configuration checks, retry delays, CPU throttling, region tables, environment overrides, `adx_layout` and mesh helpers would only add easy members.

# The verification pipeline of the Drop-the-Mic operator, modelled and proved in Dafny

The operator reads `ChecklistPolicy` objects, asks a language model whether each check of a policy
holds in the cluster, keeps an alert per check, and sends a notification whenever an alert changes
state. This project models that pipeline and proves what holds of every reply of the model, every
history of verdicts, every interleaving of scans, and every interleaving of reconciles.

Code that works step by step is an imperative method or a class here (the store and its cells, the
registry and its cache, the adapter, the engine, the scheduler, the reconciler), and every such
method is proved equal to a function on values; the theorems are about those functions, over whole
runs. Whatever the operator cannot control (the remote model, the tools and the cluster they read,
the API server's answers, the clock, the hash functions, the JSON encoder) is a parameter of
arbitrary behaviour, and a property that needs a hypothesis about one of them says so.

| file | models |
|---|---|
| GoTypes.dfy, LlmTypes.dfy, Text.dfy | `int32` counters, optional values and errors; adapter requests and answers; substring search, trimming, ASCII upper case |
| AlertMachine.dfy | one check's alert as a state machine: closed form, wrap-around, notification language |
| AlertStore.dfy | the store: cells in nested maps, runs of calls on all policies and checks |
| ToolCache.dfy | the tool registry and the per-scan cache over it |
| Verdicts.dfy | reading verdicts out of a reply, and the reply format the batch prompt asks for |
| ClaudeChat.dfy, ClaudeAdapter.dfy | the bounded tool-use conversation; the adapter as an object |
| Engine.dfy | snapshot, batches of five, the skip of unchanged snapshots, the summary |
| ConcurrentScans.dfy | scans of one engine interleaved lock section by lock section |
| ScanStack.dfy | the engine on the Claude adapter and the cached tools |
| Conditions.dfy | the conditions Available and Degraded and everything that writes them |
| Scans.dfy, ScanRounds.dfy, Scheduler.dfy | processing results, runs of full scans and rescans, the scheduler as an object |
| Overlap.dfy | full scans and rescans of any policies interleaved store call by store call |
| Isolation.dfy | when the alerts of a policy are its own |
| Reconciling.dfy, Fleets.dfy, Reconciler.dfy | what a reconcile writes and why it comes to rest; interleaved reconciles and their schedulers; the reconciler as an object |
| Base64Url.dfy, Jwt.dfy | section 5 of RFC 4648 as Go implements it; signed tokens (section 7.1 of RFC 7515, RFC 7519), login and the request gate |

Where code and documentation differ, the model follows the code:

- The repository's README (line 97) says an alert escalates after N consecutive failures. With
  threshold N it escalates on failure N + 1: one failure to fire, then N retries
  (`AlertMachine.ClosedForm`; `store_test.go:98-119` agrees). After a restore it can be earlier
  (`AlertStore.RestoreKeepsOldRetries`).
- That README calls the threshold configurable and the policy's spec has a field for it, but the
  operator builds its store with 5 (`operator/cmd/main.go:189`). The model takes any threshold.
- The snapshot asks for a tool `get_events`, which the operator does not register; the call fails
  and is left out of the snapshot. The model keeps the name and lets any tool be missing.
- The store is keyed by the policy's name alone, the engine by namespace and name. Policies of the
  same name in two namespaces share their alerts: the pass of one resolves what the other fired
  (`Isolation.SameNameShares`). A policy's alerts are those of its own scans exactly if no policy of
  another namespace bears its name (`Isolation.OnlyNamesakesInterfere`).
- A rescan is meant to announce recoveries and escalations only. A rescan's FAIL announces a firing
  exactly when, since the rescan selected its checks, a PASS for that check was recorded and no FAIL
  after it (`Overlap.RescanReports`). A full scan running meanwhile can bring that about
  (`Overlap.OverlapFires`); a rescan that nobody interrupts does it to itself exactly if it scans
  some check twice (`Scans.OnlyRepeatsFire`); the API documents check IDs as unique but does not
  enforce it.
- A failure to read the model's API key is reported as a missing secret whatever its cause
  (`Reconciling.AnySecretErrorReadsNotFound`).
- A reconcile of a policy that is being deleted and no longer holds the operator's finalizer leaves
  its scheduler running (`Fleets.DeletionStopsTheHolders`); that state is reached when someone else
  takes the finalizer (`Fleets.ForsakenKeepsRunning`).
- A requested scan is started anew by every reconcile that reads the request until its removal is
  accepted, and not at all if no scheduler runs (`Fleets.RequestStarts`).
- A reply that leaves out the word CHECK is read by the first mention of the check's ID. A check whose
  ID ends in "VERDICT" then fails whatever its line says: the search for "VERDICT:" stops in the ID
  (`Verdicts.PlainLinesAreRead`).
- A reconcile whose build fails turns a policy that passed its last full scan Degraded
  (`Reconciling.ReconcileKeepsScanHealth`).

## Model

| member | source | states |
|---|---|---|
| AlertMachine.ClosedForm | operator/internal/state/store.go:58-128 | the alert state as a function of the history: Unknown iff it never failed, Resolved iff it failed before but not last, Firing iff the k trailing failures are at most the threshold, Escalated iff more; the date is the streak's first failure, the counter is k - 1 modulo 2^32 |
| AlertMachine.PassesLeaveItFresh | operator/internal/state/store.go:106-128 | a check that never failed is as new, its update time included, however often it passed |
| AlertMachine.DatesOutliveTheStreak | operator/internal/state/store.go:58-128 | whatever passes follow the last failure: the check keeps the date of that failure's streak, and its update time is that failure's or, if it was resolved, the first pass after it |
| AlertMachine.WrapAroundIsInvisible | operator/internal/state/store.go:79-92 | the int32 retry counter never makes any state differ from an unbounded counter's |
| AlertMachine.NotificationsFormAChain | operator/internal/state/store.go:66-127 | the transitions of one check chain from Unknown to its present state and spell a prefix of a word in (Firing Escalated? Resolved)* |
| AlertMachine.EveryAlertWordHappens | operator/internal/state/store.go:66-127 | each such word is spelled by a history built for it |
| AlertMachine.NotificationLanguage | operator/internal/state/store.go:66-127 | the notification language exactly: a sequence of states is announced by some history iff it is such a word |
| AlertStore.ChecksAreIndependent | operator/internal/state/store.go:38-44 | in every interleaving, the cell and the notifications of a (policy, check) entry depend on its own calls alone |
| AlertStore.TransitionTellsTheCell | operator/internal/state/store.go:58-128 | in every run one more call adds a transition iff its check's state changes, naming check, policy, the state before, the state after and the whole cell as it is now; no other entry changes |
| AlertStore.NotificationsOverAnyRun | operator/internal/state/store.go:58-128 | in every interleaving each check's notifications chain, spell an alert word and end in the stored state |
| AlertStore.FailingChecksAreConserved | operator/internal/state/store.go:58-147 | in every interleaving the number of failing checks of a policy is its Firing notifications less its Resolved ones |
| AlertStore.CheckState.Fail | operator/internal/state/store.go:66-92 | the in-place update is the machine's step; the result says whether the state moved |
| AlertStore.CheckState.Pass | operator/internal/state/store.go:112-122 | the same for a pass |
| AlertStore.Store.NoSharedCells | operator/internal/state/store.go:174-184 | no two (policy, check) entries share a cell |
| AlertStore.Store.constructor | operator/internal/state/store.go:46-55 | an empty store; a threshold that is not positive becomes 5 |
| AlertStore.Store.GetOrCreate | operator/internal/state/store.go:174-184 | returns the entry's cell, fresh and Unknown if there was none, all other entries unchanged |
| AlertStore.Store.RecordFail | operator/internal/state/store.go:58-103 | only the named entry changes, by the machine's step; a transition is returned iff the state changed, with both states and the new cell |
| AlertStore.Store.RecordPass | operator/internal/state/store.go:106-128 | the same for a pass; a passing check that was never seen gets an Unknown entry and no transition |
| AlertStore.Store.FailedChecks | operator/internal/state/store.go:131-147 | each failing ID of the policy exactly once, no other |
| AlertStore.Store.GetState | operator/internal/state/store.go:150-161 | a copy of the entry's cell, or nothing |
| AlertStore.Store.RestoreFromFailedSince | operator/internal/state/store.go:164-172 | the entry becomes Firing with the given date and keeps its retry count |
| AlertStore.RestoreKeepsOldRetries | operator/internal/state/store.go:164-172 | for every kept counter: when a restored check escalates, which is as soon as kept retries plus new failures reach the threshold, a counter at its upper end going on at the lower; its date is the restored one, its update time the last failure's or the restore's |
| ToolCache.EveryDeskIsConsistent | operator/internal/engine/tool/cache.go:33-53 | after any calls to a changing cluster: the cache holds exactly the successful answers, failures never, and a key once answered is not executed again |
| ToolCache.EveryAnswer | operator/internal/engine/tool/cache.go:33-53 | of any calls in a scan: call i is executed iff no earlier call of its key succeeded; if executed, its outcome is what the registered function gives at that moment for that call's own parameters, or the error for an unregistered name; if not, it is that of an earlier executed success of the same key |
| ToolCache.RepeatedCallsAgree | operator/internal/engine/tool/cache.go:33-53 | a call repeated after its success gives the identical output without running the tool |
| ToolCache.KeyTextInjective | operator/internal/engine/tool/cache.go:27-30 | name, separator and parameters determine name and parameters when names have no separator |
| ToolCache.CacheRefinesRegistry | operator/internal/engine/tool/cache.go:27-53 | over an unchanging registry a cached call answers what the registered function gives for its parameters, or the unknown-name error, iff the tool is registered or no earlier success had the same key text |
| ToolCache.PlainCallsAreTransparent | operator/internal/engine/tool/cache.go:33-53 | over an unchanging registry and with a collision-free hash, each call whose name has no separator answers what the registered function gives for its own parameters, cached or not |
| ToolCache.SeparatorNameIsAnswered | operator/internal/engine/tool/cache.go:27-30 | the calls for which it is noticed: an unregistered name that continues a registered one past the separator |
| ToolCache.Registry.Register | operator/internal/engine/tool/registry.go:49-53 | the tool is stored under its name, replacing an earlier one, all others unchanged |
| ToolCache.Registry.Definitions | operator/internal/engine/tool/registry.go:56-64 | one definition per registered tool, no other, none twice |
| ToolCache.Registry.Call | operator/internal/engine/tool/registry.go:67-75 | the answer of the registered function to the given parameters at this moment, or the error for an unknown name |
| ToolCache.CachingRegistry.Call | operator/internal/engine/tool/cache.go:33-53 | cache, cluster and answer are those of the specification all cache theorems are about |
| Verdicts.FirstTwinDecides | operator/internal/engine/llm/claude.go:422-434 | in a printed reply a check gets the verdict of the first line that carries its ID up to letter case |
| Verdicts.RoundTrip | operator/internal/engine/llm/claude.go:407-462 | parsing a printed reply recovers every verdict iff IDs that differ only in letter case carry equal verdicts |
| Verdicts.UnmentionedCheckFails | operator/internal/engine/llm/claude.go:435-451 | a check the reply mentions nowhere fails |
| Verdicts.MarkerReads | operator/internal/engine/llm/claude.go:422-434 | any reply with a marker for the check anywhere: the verdict is PASS or WARN if that word comes next after the first marker, spaces aside, else FAIL |
| Verdicts.MentionReads | operator/internal/engine/llm/claude.go:435-451 | any reply without a marker: the same, after the first "VERDICT:" that follows the first mention of the ID |
| Verdicts.MentionWithoutVerdictFails | operator/internal/engine/llm/claude.go:435-451 | if none follows it, FAIL |
| Verdicts.PlainLinesAreRead | operator/internal/engine/llm/claude.go:435-451 | a reply of lines "<id>: VERDICT: <V>", each ID mentioned in its own line only, gives each check its verdict, except that a check whose ID ends in VERDICT fails |
| Verdicts.SingleVerdictIs | operator/internal/engine/llm/claude.go:387-397 | a single verdict is PASS iff the reply says "VERDICT: PASS" somewhere, in any letter case, WARN iff it says only "VERDICT: WARN", else FAIL |
| Verdicts.CaseIsIgnored | operator/internal/engine/llm/claude.go:387-424 | replies, and IDs, that differ in letter case only are read the same |
| Verdicts.SingleLineIsRead | operator/internal/engine/llm/claude.go:387-397 | a reply with one verdict line is read as that line says |
| ClaudeChat.ChatInvariant | operator/internal/engine/llm/claude.go:120-155 | whatever the model replies: at most ten requests, the i-th a proper conversation of 1 + 2i messages whose tool results answer the tool uses in order, and the records are exactly the calls shown |
| ClaudeChat.ChatUsesTools | operator/internal/engine/llm/claude.go:120-155 | the chat opens with the prompt; every "tool_use" reply but a tenth is followed by a request that adds its readable blocks in order and one result per tool use, the tool's output or its error; the tools were called in that order at the scan's cache; the first other reply is handed back; it runs out of turns iff all ten replies asked for tools |
| ClaudeChat.ConverseRecordsTheLog | operator/internal/engine/llm/claude.go:282-298 | the records handed back are what the tool cache answered during the conversation, in order |
| ClaudeAdapter.Adapter.ProcessToolUse | operator/internal/engine/llm/claude.go:258-303 | said, results and records of one turn, and the cache after it |
| ClaudeAdapter.TextsAreJoined | operator/internal/engine/llm/claude.go:372-385 | a reply's text is its text blocks joined in order, and of nothing else |
| ClaudeAdapter.VerifyAnswers | operator/internal/engine/llm/claude.go:126-156 | a single check's answer for each ending: the reply's text as reasoning, the verdict it gives and all records; or the API's error; or the complaint about too many turns |
| ClaudeAdapter.BatchAnswersEveryCheck | operator/internal/engine/llm/claude.go:407-462 | a batch is answered for every check or, after an error, not at all: own verdict, common reasoning and records |
| ClaudeAdapter.Adapter.Ask | operator/internal/engine/llm/claude.go:120-155 | the request loop is the specified conversation |
| ClaudeAdapter.Adapter.ParseVerdict | operator/internal/engine/llm/claude.go:372-404 | text and verdict of a single reply |
| ClaudeAdapter.Adapter.ParseBatchVerdicts | operator/internal/engine/llm/claude.go:407-462 | one response per check, in order, by marker or by mention |
| ClaudeAdapter.Adapter.Verify | operator/internal/engine/llm/claude.go:97-156 | state and answer after verifying one check, errors included |
| ClaudeAdapter.Adapter.BatchVerify | operator/internal/engine/llm/claude.go:159-220 | the same for a batch |
| Engine.OneResultPerCheck | operator/internal/engine/engine.go:131-222 | for every adapter behaviour (error, short or long reply) one result per check, in order, with its ID, description and severity |
| Engine.ResultsFollowAnswers | operator/internal/engine/engine.go:131-222 | five by five, a lone check by verify and several by one batch call in their order, each sent on from the state the one before left: verdict, reasoning and evidence of each result are the adapter's answer to that very check, or a failure that tells the error or the missing answer |
| Engine.SnapshotShows | operator/internal/engine/engine.go:64-75 | the snapshot is the sections of pods, nodes and events in that order, each headed by its tool's name and holding its output, an erring tool's left out |
| Engine.SnapshotTells | operator/internal/engine/engine.go:64-75 | if one tool's answer changes, the snapshot changes, unless it was an error before and after |
| Engine.ChangedOutputIsVerified | operator/internal/engine/engine.go:91-103 | with adapter and tools of any kind: if one tool's output has changed since the policy's last scan and the two hashes do not collide, the scan is not skipped, and all checks are verified under the new outputs |
| Engine.SkippedExactlyWhenCovered | operator/internal/engine/engine.go:93-129 | after a scan that was not skipped, the policy's next is skipped iff it has checks, each of their IDs was in that scan, and the snapshot has the same hash |
| Engine.BatchingIsPointwise | operator/internal/engine/engine.go:131-222 | if a batch is answered as its checks would be one by one, errors and state included (up to any likeness of states the adapter respects), a scan's verdicts are those of verifying each check by itself |
| Engine.AdapterCalls | operator/internal/engine/engine.go:131-222 | n checks take exactly ceil(n / 5) adapter calls, a single verification among them iff n mod 5 = 1 |
| Engine.AdapterCallsPerScan | operator/internal/engine/engine.go:93-222 | a skipped scan makes no adapter call, any other the above number |
| Engine.ScanReportsOnAll | operator/internal/engine/engine.go:93-222 | skipped or not, a scan reports on each of its checks in order |
| Engine.SkipIsTransparent | operator/internal/engine/engine.go:93-129 | over any run of scans on any parts of any policies, with an adapter that is a function of check and snapshot and hashes that differ for different snapshots: each scan gives the verdicts it would have given without the skip |
| Engine.UnchangedSnapshotRepeats | operator/internal/engine/engine.go:100-129 | with any adapter and any checks: a scan under an unchanged snapshot hash makes no adapter call and repeats the verdicts of the scan before, errors included, saying so and without evidence; of a check named twice, the last |
| Engine.SummaryIsFaithful | operator/internal/engine/engine.go:262-277 | below 2^31 results each of PASS, WARN and FAIL is counted as often as it was given; the parts add up to the total iff no other verdict was; the failure count is positive iff some check failed |
| Engine.ComputeSummary | operator/internal/engine/engine.go:262-277 | the counting loop computes the wrapped counts of each verdict |
| Engine.Engine.CollectSnapshot | operator/internal/engine/engine.go:64-75 | the snapshot text, failed tools left out |
| Engine.Engine.RunInBatches | operator/internal/engine/engine.go:131-222 | the batch loop computes the specified results |
| Engine.Engine.RunChecks | operator/internal/engine/engine.go:78-244 | results, summary and the remembered pair after a scan, skipped or not |
| ConcurrentScans.InvAlwaysHolds | operator/internal/engine/engine.go:93-98 | in every interleaving of any number of scans: cells, phases and pairs stay consistent |
| ConcurrentScans.AuthorsAlwaysRan | operator/internal/engine/engine.go:227-235 | every published verdict map is recorded to a scan of the run that is now at its end with just that job and those verdicts |
| ConcurrentScans.PairsAreOfOneScan | operator/internal/engine/engine.go:95-98 | the pair of hash and verdict map that a scan has read, or that is stored while nobody writes, comes from one scan of this run: completed, of that policy, under a snapshot of that hash, the map holding exactly its verdicts |
| ConcurrentScans.ReusesExactlyWhenCovered | operator/internal/engine/engine.go:100-108 | in every interleaving a scan that has read the remembered pair goes on to reuse iff it has checks and one completed scan of its policy, under a snapshot of the same hash, gave a verdict for each; else it computes its own |
| ConcurrentScans.NobodyIsStuck | operator/internal/engine/engine.go:93-235 | in every interleaving each scan that has not ended can take a step, or the one holding the lock can |
| ConcurrentScans.ReuseIsOfOneScan | operator/internal/engine/engine.go:100-129 | a scan that reuses verdicts, reading them without the lock, reports for each check what one completed scan of this run, of its policy and under the same hash, gave for that check |
| ConcurrentScans.SkipIsTransparent | operator/internal/engine/engine.go:93-129 | in every interleaving: if verdicts are computed as a function of policy, snapshot and check, and the snapshots seen have different hashes, every scan that ends, reusing or not, reports what it would have computed under its own snapshot |
| ConcurrentScans.PublishedForever | operator/internal/engine/engine.go:227-235 | a published verdict map is never changed again |
| ScanStack.ScanCost | operator/internal/engine/llm/claude.go:120-219 | a scan of n checks sends at most 10 * ceil(n / 5) requests to the remote model whatever it replies, a skipped one none |
| ScanStack.EvidenceIsConsistent | operator/internal/engine/engine.go:246-260 | within a scan each result's evidence is a stretch of the tool calls after the snapshot's, batch after batch; once a call succeeded, in the snapshot or in any check's evidence, every later record of that tool and input in any check's evidence is identical, however the cluster changed |
| ScanStack.SummariesAddUp | operator/internal/engine/engine.go:262-277 | over any run of scans with the Claude adapter, reused verdicts included, Pass + Warn + Fail = Total = number of checks (below 2^31) |
| Conditions.HealthIsOpposed | operator/internal/scheduler/scheduler.go:284-349 | after any writes by scheduler and reconciler: Available and Degraded are there once each, opposite, as the last write said; all other conditions are unchanged |
| Conditions.HealthDatesItsStreak | operator/internal/scheduler/scheduler.go:284-349 | from any list on: the date on Degraded and that on Available are of the write that began the present streak, or the one found at the start if all writes agree with it |
| Conditions.WriteSettles | operator/internal/controller/checklistpolicy_controller.go:149-187 | a write settles the conditions; writing the same again later changes nothing, and changes nothing only then |
| Conditions.FullScanStatusIsFaithful | operator/internal/scheduler/scheduler.go:280-321 | a full scan leaves Degraded true iff one of its checks failed, Available true iff none did; reason and message are as the code words them, with the number of results of each verdict |
| Conditions.DecimalReads | operator/internal/scheduler/scheduler.go:286 | the numbers in that message read back as the counts, without leading zeros |
| Conditions.RunningKeepsScanHealth | operator/internal/controller/checklistpolicy_controller.go:149-182 | a reconcile that got its scheduler running never flips or redates what a full scan reported |
| Reconciling.ReconcileKeepsScanHealth | operator/internal/controller/checklistpolicy_controller.go:120-187 | of a reconcile after a full scan, whatever came of its build: both conditions keep status and date iff the build was good or the scan had found a failure; otherwise Degraded becomes true and Available false, dated now |
| Reconciling.ReconcileDoes | operator/internal/controller/checklistpolicy_controller.go:71-187 | any policy after one reconcile, any build: being deleted it loses our finalizer, nothing else; live it first gains it; then loses a request for a scan; then, scanned before or not, Degraded is true and Available false iff the build broke or the last full scan had failures, else the opposite, with the code's reasons and messages; all else stays |
| Scans.ProcessFollows | operator/internal/scheduler/scheduler.go:198-233 | processing results continues the run of store calls and sends exactly one event per transition, in order; WARN makes no call |
| Scans.FailureDatesItsStreak | operator/internal/scheduler/scheduler.go:204-211 | a failing result is dated with the first failure of its check's streak |
| Scans.StoredResults | operator/internal/scheduler/scheduler.go:198-214 | each result of a scan as it is stored: unchanged, except that a failing one is dated with the first failure of its check's streak as it stood then |
| Scans.LatestDecides | operator/internal/scheduler/scheduler.go:198-233 | a check is failing iff the latest PASS or FAIL reported for it is FAIL |
| Scans.ScanDecides | operator/internal/scheduler/scheduler.go:198-233 | after a scan of distinct checks: failing iff it failed now, or was failing and neither failed nor passed now |
| Scans.UnreportedIsKept | operator/internal/scheduler/scheduler.go:198-214 | a scan changes no entry it does not report on |
| Scans.RescanNeverFires | operator/internal/scheduler/scheduler.go:154-233 | results for distinct checks that are failing when processed announce only escalations and resolutions of those checks; without either condition it does not hold (next row) |
| Scans.FiringNeedsAGapOrARepeat | operator/internal/scheduler/scheduler.go:198-233 | some verdicts make results processed in one go announce a firing iff one of the checks is not failing when they are processed, or two are the same |
| Scans.OnlyRepeatsFire | operator/internal/scheduler/scheduler.go:154-233 | the case of a rescan that nobody interrupts: iff it scans a check twice |
| Scans.FiresAfterAPass | operator/internal/scheduler/scheduler.go:198-233 | of a check that was failing, after any reports by anyone: the next report on it announces a firing iff it is FAIL and the latest PASS or FAIL since then is PASS |
| ScanRounds.FailingMeansLatestFailed | operator/internal/scheduler/scheduler.go:122-233 | over any mix of full scans, rescans and rebuilt schedulers of any policies with any adapter: the failing set is the IDs whose latest PASS or FAIL is FAIL, events are the store's transitions one for one, each check's events spell an alert word |
| Scans.EventsTellTheirReports | operator/internal/scheduler/scheduler.go:216-232 | over any reports each event belongs, by position, to the report whose store call gave its transition: same policy, check, description, severity, verdict and reasoning; resolved iff PASS, fired or escalated iff FAIL; no other report's call gave a transition |
| ScanRounds.EventsTellTheRounds | operator/internal/scheduler/scheduler.go:216-232 | the same over any run of full scans and rescans |
| ScanRounds.RescanIsConfined | operator/internal/scheduler/scheduler.go:154-196 | a rescan that nobody interrupts only shrinks the failing set, touches only its members, and with distinct IDs sends only their escalations and resolutions |
| ScanRounds.RoundReportsOn | operator/internal/scheduler/scheduler.go:122-196 | a round reports once, under the policy's name and in the policy's order, on each check it covers: all of them, or in a rescan those now failing |
| Overlap.FailingMeansLatestFailed | operator/internal/scheduler/scheduler.go:61-100 | however scans overlap: failing set and notifications follow the reports as above |
| Overlap.RescanReports | operator/internal/scheduler/scheduler.go:154-233 | in every interleaving with other scans each report of a rescan is on a check that was failing when it selected; it announces a firing, and enlarges the failing set, iff it is FAIL and the latest PASS or FAIL for the check since the selection is PASS; no other entry changes |
| Overlap.OverlapFires | operator/internal/scheduler/scheduler.go:154-233 | the interleaving, for every check, in which a rescan that names it once announces a firing |
| Isolation.OwnRoundsDecide | operator/internal/scheduler/scheduler.go:155-205 | in any run without a namesake in another namespace a policy's reports, memory, alerts and notifications are those of its own rounds alone, up to dates |
| Isolation.SameNameShares | operator/internal/scheduler/scheduler.go:155-205 | two policies of one name in different namespaces: a pass of the second resolves what the first fired, a rescan of the second selects it |
| Isolation.OnlyNamesakesInterfere | operator/internal/state/store.go:38-44 | a policy's alerts are its own in every run with another policy iff the two differ in name or share the namespace |
| ScanRounds.ScanHealth | operator/internal/scheduler/scheduler.go:267-321 | status against store after a full scan: Degraded iff a check failed; a scanned check is failing iff its last PASS or FAIL of the scan is FAIL, or it had none and was failing before; where no check is named twice, a check that failed is failing, and without WARN Degraded iff a scanned check is failing |
| Scheduler.Scheduler.ProcessResults | operator/internal/scheduler/scheduler.go:198-233 | store, clock, events sent and the results dated in place, as specified |
| Scheduler.Scheduler.RunFullScan | operator/internal/scheduler/scheduler.go:122-152 | a full scan's whole effect; a refused result object leaves the status alone |
| Scheduler.Scheduler.RunRescan | operator/internal/scheduler/scheduler.go:154-196 | a rescan's whole effect: nothing without failing checks, never the status |
| Scheduler.Scheduler.FailedChecks | operator/internal/scheduler/scheduler.go:155-174 | the policy's failing checks in the policy's order |
| Scheduler.Scheduler.UpdatePolicyStatus | operator/internal/scheduler/scheduler.go:267-321 | scan time, summary and both conditions after a full scan |
| Reconciling.ReconcilingConverges | operator/internal/controller/checklistpolicy_controller.go:96-187 | repeated reconciles of a live policy change it exactly as often as there are things to do, three at most, and then never |
| Reconciling.RestingPlace | operator/internal/controller/checklistpolicy_controller.go:96-187 | where that ends: finalizer held, no run-now, Degraded and Available as the build and the last full scan, if any, demand, nothing else changed |
| Reconciling.DeletionIsWrittenOnce | operator/internal/controller/checklistpolicy_controller.go:84-94 | however often a policy being deleted is reconciled: our finalizer goes at the first, nothing else ever changes |
| Reconciling.AnySecretErrorReadsNotFound | operator/internal/controller/checklistpolicy_controller.go:123-126 | every failure to read the model's secret is reported as SecretNotFound |
| Fleets.OneSchedulerPerPolicy | operator/internal/controller/checklistpolicy_controller.go:191-253 | in every interleaving of reconciles: never two running schedulers for one policy; between its reconciles exactly the map's one |
| Fleets.EndOfReconcile | operator/internal/controller/checklistpolicy_controller.go:71-147 | no scheduler runs after a reconcile that found the policy gone, let it go, or could not build; the map's runs after a good build |
| Fleets.FinalizerOutlivesScheduler | operator/internal/controller/checklistpolicy_controller.go:84-94 | the finalizer is given up only while the policy is being deleted and none of its schedulers runs |
| Fleets.RunNowFindsTheRunning | operator/internal/controller/checklistpolicy_controller.go:105-119 | a requested scan goes to the scheduler running for the policy, if any |
| Fleets.RequestStarts | operator/internal/controller/checklistpolicy_controller.go:105-119 | of a run-now request, reconciled until its removal is accepted: it is gone then, and it started one scan for each time it was read if a scheduler runs, else none; so exactly one iff a scheduler runs and no write was refused before |
| Fleets.CompleteIsARun | operator/internal/controller/checklistpolicy_controller.go:71-189 | from any point of a reconcile, finishing it with nothing in between is a run of its steps |
| Fleets.WholeIsARun | operator/internal/controller/checklistpolicy_controller.go:71-189 | so after any run a whole reconcile of an idle policy is a run of steps of that policy |
| Fleets.WholeIs | operator/internal/controller/checklistpolicy_controller.go:71-189 | its effect on objects, map and schedulers, decision by decision |
| Fleets.WholeSchedules | operator/internal/controller/checklistpolicy_controller.go:71-243 | what a whole reconcile does to the schedulers, from the policy alone: letting it go or a broken build stops its scheduler, a request reaches it, a good build replaces it, in all other cases every scheduler stays |
| Fleets.WholeWrites | operator/internal/controller/checklistpolicy_controller.go:71-189 | what it does to the objects: a refused write changes none, an accepted one this policy's alone, which vanishes with the last finalizer it was waiting for |
| Fleets.WholeReports | operator/internal/controller/checklistpolicy_controller.go:120-187 | after a whole reconcile that rebuilt, the stored health conditions tell how the build and the last full scan, if any, went |
| Fleets.ComesBack | operator/internal/controller/checklistpolicy_controller.go:71-189 | when a reconcile asks to be run again: at once iff it added the finalizer, after ten seconds iff a running scheduler's status could not be written, with an error iff the read, the build or another write failed |
| Fleets.DeletionStopsTheHolders | operator/internal/controller/checklistpolicy_controller.go:84-94 | a reconcile of a policy being deleted ends with no scheduler running iff the finalizer was held or none ran before |
| Fleets.ForsakenKeepsRunning | operator/internal/controller/checklistpolicy_controller.go:84-94 | the run, for any policy, that reaches the other case: being deleted without our finalizer, its scheduler runs and keeps running |
| Fleets.NoStall | operator/internal/controller/checklistpolicy_controller.go:96-189 | a reconcile of a live policy that does not ask to be repeated changed the object, or nothing is left to do and its scheduler runs |
| Reconciler.Reconciler.StopScheduler | operator/internal/controller/checklistpolicy_controller.go:245-253 | the policy's scheduler, if any, is stopped and forgotten; all others keep running |
| Reconciler.Reconciler.ReconcileScheduler | operator/internal/controller/checklistpolicy_controller.go:191-243 | the old scheduler goes first; a new one runs and is kept only after a good build |
| Reconciler.Reconciler.Reconcile | operator/internal/controller/checklistpolicy_controller.go:71-189 | objects, map, schedulers and the request to come back are those of the specification |
| Base64Url.RoundTrip | operator/server/handler/auth.go:37-45 | decoding an encoding gives the bytes back; it is made of letters without '.', of the least length |
| Base64Url.LettersAreTheTable | operator/server/handler/auth.go:37-40 | the alphabet is Table 2 of RFC 4648 |
| Base64Url.EncodingIs | operator/server/handler/auth.go:37-40 | an encoding spells, in that table, the sextets whose bits are those of the bytes in the same order, filled up with zero bits |
| Base64Url.CanonicalText | operator/server/handler/auth.go:42-45 | a text that decodes is the encoding of what it decodes to iff it has no line break and zero spare bits |
| Jwt.SplitIsExact | operator/server/handler/auth.go:64-68 | the three-way split reads back the three parts |
| Jwt.SignVerify | operator/server/handler/auth.go:48-102 | a signed token gives its claims back iff the secret's hash agrees and the time is at most the expiry; the exact error otherwise |
| Jwt.AcceptedTokens | operator/server/handler/auth.go:64-102 | exactly which texts are accepted |
| Jwt.HeaderSays | operator/server/handler/auth.go:16-61 | a token made here has a header that decodes to HS256 and JWT, a payload that decodes to the claims and a signature that decodes to the hash of the first two parts |
| Jwt.GateOpensFor | operator/server/handler/auth.go:164-213 | who gets through: everybody without configured credentials; anyone to the health check, the login and paths outside /api/; else exactly who brings a bearer token that verifies |
| Jwt.LoginLastsADay | operator/server/handler/auth.go:105-213 | login works iff the credentials are the configured ones, 401 otherwise and 400 without a readable body; its token gives the claims back, and opens guarded paths, for exactly 86400 seconds after the second of issue |

## Left out

- Prompts, system blocks and tool schemas: how a request is worded is a parameter; the HTTP and JSON transport is an arbitrary answer to each request.
- The concrete tools and the Kubernetes API: any function of the moment and the parameters; API writes are refused or accepted at will.
- SHA-256 and HMAC: parameters, with collision freedom as a hypothesis where a lemma names it. JSON encoding of claims: a pair of parameters, inverse by hypothesis.
- Upper-casing and trimming outside ASCII.
- Requests' tool definitions (`toolDefs`), `CachingRegistry.Hashes` and the model's token limits: they reach only the remote model or nobody.
- Cron parsing and firing, goroutines, and cancellation by `Stop`: a scan runs when a run says so. In `ScanRounds` scans follow each other; in `Overlap` they interleave store call by store call, and in `ConcurrentScans` access by access to the engine's memory.
- Of overlapping scans: the order in which their events reach the notifiers, and that a failing result's date is read in a second critical section (`scheduler.go:207`), so that another scan may redate the check in between.
- ScanRounds.RescanIsConfined: says nothing of a rescan that others interrupt; `Overlap.RescanReports` does.
- Engine.SkipIsTransparent: a run is of one engine's life, which starts with nothing remembered; `ScanRounds` lets a scheduler, and with it its engine, be rebuilt before any round.
- Isolation.OwnRoundsDecide: clock readings are not compared, because scans of other policies advance the clock; namespaces are taken to have no slash, as Kubernetes demands.
- `Dispatch` and the notifiers behind it (Slack, GitHub, Jira): a log of events, none of them refused.
- Result names, labels and scan timestamps other than the last full scan's; the rescan branch of `updatePolicyStatus`, and `setDegradedCondition`, which nothing reaches because `RunChecks` never returns an error (its write is one of those `Conditions.HealthIsOpposed` covers).
- How conditions are set on a list, how finalizers are added and removed, and that a deleted object vanishes with its last finalizer: the documented behaviour of Kubernetes and its client libraries, not part of the repository.
- What building a scheduler reads (secrets, provider, notifiers, cron expressions): it succeeds or fails with any message.
- The inner Go maps are values held in a field, except for the alert store's cells and the verdict maps of `ConcurrentScans`, which are heap objects.
- AlertStore.Store.RestoreFromFailedSince: has no caller and is not part of the runs the history theorems are about, because it emits no transition.
- Fleets.WholeWritesTheDecision: says nothing of a policy edited while it is reconciled; such an edit makes the write fail, as the resource version would.
- Jwt.SignVerify: assumes that the claims survive their JSON encoding; times are whole seconds since 1970 rounded down, without the range of `int64`.
- The React UI, the CRUD handlers, Helm and kustomize files, generated code and flag parsing: display or wiring only.

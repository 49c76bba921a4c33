# Kovern: a verified model

This project models the two state machines of Kovern, a Kubernetes operator that governs AI
agent workloads, and proves properties of them in Dafny 4.11. `dafny verify dfyconfig.toml`
checks everything.

**Spend ledger and admission.** OTLP trace exports are flattened into spans; spans with token
usage are priced by a longest-pattern-first glob table and added to an in-memory ledger with one
account per namespace and ServiceAccount. A reconciler copies spend between the ledger and
`TokenQuota.status` and renews quotas; the admission webhook decides from the ledger alone.

**Loop detection.** The same exports record tool calls in a sliding-window store that is trimmed
in place. Every tick the engine samples it, counts calls per tool, and remediates pods that cross
a policy's threshold, with a cooldown per pod.

## How it is modelled

| module | component |
|---|---|
| `LedgerCache`, `LedgerSpec`, `LedgerHistory`, `SpendRuns` | the cache as a class over entries; its operations as functions; the log of operations; runs of spends |
| `Webhook`, `Enforcement` | admission; what a synced quota enforces, and how long |
| `ReconcileSpec`, `Controller`, `Accounting`, `Renewal` | the reconciler as a class and as a function; durable spend; the renewal schedule |
| `SpendFormat` | the text of `status.spentUSD` |
| `Pricing`, `DefaultPrices` | the estimator as a class; the built-in table |
| `SpanStorage`, `SpanLog` | the span store over buffers; the untrimmed log |
| `Receiver`, `Attribution`, `ExportRuns`, `EndToEnd` | the HTTP handler after decoding; which span goes where; batches and concurrent exports; exports up to admission |
| `Engine`, `Detection`, `LoopRuns`, `Sampling`, `PodIsolation` | the engine as a class; one evaluation; runs of its atomic steps and of whole ticks |
| `Remediation` | the executor |

Each method of the cache takes a lock for its whole body, so it is one atomic step. Its contract
says which step, as a function of the ledger's value; a reconcile or an export is a sequence of
steps, and whatever other goroutines land in between is a parameter. `LoopRuns` splits the
engine's work on a pod into three steps (cooldown check, window sample, start of the remediation)
between which calls may be recorded.

Clock readings are integers in nanoseconds and parameters of the operation that takes them.
Amounts in the ledger are reals and counters unbounded integers; an amount in a status is text
with six decimals. `path.Match`, one calendar month later, label selection and the answers of the
API server are parameters. `hide` statements only restrict what a proof may use.

## Where the code differs from its prose

The model follows the code, and the difference is stated as a theorem.

- Sync is described as restoring spend after restarts, but every reconcile calls it and so
  replaces the ledger's spend by the status: spends outside the Sync-to-Get window of a reconcile
  whose write succeeds are lost
  (`Accounting.ConservedExactlyWhen`, `Accounting.SpendAfterGetIsLost`).
- The engine promises no double remediation within the same window and computes a cooldown of
  twice the window, but the duration is ignored (`LoopRuns.TwoMinutesIsTheLimit`).
- Windows may be longer than the ten minutes the store keeps (`SpanLog.RetentionIsTheLimit`).
- The executor means to report what actually ran, but reports SuspendWorkload also when a lookup
  failed and nothing was attempted (`Remediation.SuspendReportIsTrueExactlyWhen`,
  `Remediation.SuspendReportedWithoutAttempt`).
- A deleted quota's entry is looked up under the quota's own name
  (`Accounting.DeletionClearsExactlyWhen`).
- A suspension in the status denies pods until the first spend of the key, and after it only as an
  exceeded budget does (`Enforcement.SuspensionDeniesExactlyWhen`); the next Sync installs it
  again unless the spend landed in the Sync-to-Get window of a reconcile whose write succeeds,
  which ends it for good (`Enforcement.SuspensionLastsExactlyWhen`).
- A budget that AsInt64 refuses, such as a fraction or an amount beyond 64 bits, counts as zero,
  so no spending ever exceeds it (`Enforcement.SpendingExceedsExactlyWhen`); but a status that
  says Exceeded or Suspended still denies until the first spend
  (`Enforcement.HalfDollarBudgetDeniesUntilSpend`).
- A passed deadline is meant to admit pods until the controller resets the quota, but a renewal
  leaves the passed deadline in the ledger, so nothing is enforced until the next Sync
  (`Renewal.RenewalSuspendsEnforcement`). Reconciles at the requeue times alone find the new
  deadline passed as well, and the quota is not enforced at any instant after their Syncs
  (`Renewal.NotEnforcedOnRequeuesAlone`, `Renewal.TwoHourlyVisitsNeverEnforce`); it takes
  an earlier one, such as the one a status write triggers, to bring enforcement back (`Renewal.DeadlineInForce`).
- The estimate is called deterministic regardless of map order; that needs equally long matching
  patterns to carry one price (`Pricing.OrderIndependence`, after overrides
  `Pricing.OverriddenOrderIndependence`), which the default table satisfies and other globs may
  not (`DefaultPrices.GlobsCanDependOnOrder`).

## Model

| member | source | states |
|---|---|---|
| `Common.KeyInjective` | internal/ledger/cache.go:39-42 | with slash-free namespaces a "namespace/name" key stands for exactly one pair |
| `LedgerCache.Entry.Install` | internal/ledger/cache.go:72-102 | Sync on one entry: budget, soft limit with its default of 80, state and counters only from a status that has a state, the amount only if it parses, the deadline only if present |
| `LedgerCache.Cache.constructor` | internal/ledger/cache.go:57-62 | a new cache holds no entry |
| `LedgerCache.Cache.Sync` | internal/ledger/cache.go:66-103 | the whole new ledger: the quota's key holds the old (or a new) entry with the quota installed, every other key is as before |
| `Enforcement.SyncedFields` | internal/ledger/cache.go:66-103 | what a Sync leaves, field by field and without naming the specification's functions: the key namespace/target, the budget or 0, the soft limit or 80, state and counters of a status that has a state, a readable amount, a deadline if present, everything else as found or zero and Active on a new entry, no other key touched |
| `LedgerCache.Cache.Check` | internal/ledger/cache.go:107-122 | Active without an entry and once the deadline has passed, the entry's state otherwise |
| `LedgerCache.Cache.RecordSpend` | internal/ledger/cache.go:126-142 | the whole new ledger: amount, tokens and run added and the state recomputed for that key only; no entry means no change and an error |
| `LedgerCache.Cache.Get` | internal/ledger/cache.go:145-155 | a copy that shares nothing with the cache, or nil exactly when there is no entry |
| `LedgerCache.Cache.Reset` | internal/ledger/cache.go:158-171 | the whole new ledger: counters zero and Active for that key only |
| `LedgerCache.Cache.Delete` | internal/ledger/cache.go:174-178 | the ledger without that key |
| `LedgerCache.Cache.RecordAll` | internal/ledger/cache.go:126-142 | a sequence of spends by other goroutines is the run of those operations on the ledger |
| `LedgerSpec.StateThresholds` | internal/ledger/cache.go:189-202 | Exceeded exactly from a positive budget on, SoftLimit exactly from softLimitPct percent of it on, otherwise Active: the division-free meaning of the percentage test |
| `LedgerSpec.MoreSpendNoLessSevere` | internal/ledger/cache.go:189-202 | a non-negative spend never lowers the severity of the computed state |
| `LedgerSpec.ApplyFrame` | internal/ledger/cache.go:66-178 | an operation on one key changes no other account |
| `LedgerHistory.LedgerRefinesHistory` | internal/ledger/cache.go:66-178 | after any log of operations an entry exists exactly when the key's own history is live, and then all its fields are what that history says: quota installed last, deadline carried last, amount last installed or cleared plus later spends, state of the last operation that touched it |
| `LedgerHistory.LiveDependsOnOwn` | internal/ledger/cache.go:66-178 | a key's live history depends on the operations on that key alone |
| `LedgerHistory.KeyIsolation` | internal/ledger/cache.go:66-178 | two logs that agree on one key's operations leave it with the same account and the same Check at every time |
| `LedgerHistory.PairIsolation` | internal/ledger/cache.go:40-42 | operations on other (namespace, ServiceAccount) pairs never change a pair's account |
| `SpendRuns.SpendConservation` | internal/ledger/cache.go:126-142 | over any run of spends no entry appears or goes, and each account grows by exactly the sums over its own charges, its state following the final total |
| `SpendRuns.GrowthAmidOthers` | internal/ledger/cache.go:66-178 | an account that is only spent from grows by the sums over its own charges, whatever any other operations do to other keys in between |
| `SpendRuns.SumsOfPermutation` | internal/ledger/cache.go:135-137 | the sums per key depend on the multiset of charges only |
| `SpendRuns.InterleavingIsPermutation` | internal/otelreceiver/receiver.go:184-202 | every interleaving of several threads of charges is a permutation of running them one after the other |
| `SpendRuns.PermutationConfluence` | internal/ledger/cache.go:126-142 | the same charges in any two orders and at any times leave every key with the same amount, tokens, runs, state and deadline |
| `SpendRuns.ConfluenceAmidOthers` | internal/ledger/cache.go:66-178 | two logs with the same charges of a key in any two orders leave it with the same account, whatever each does to other keys |
| `SpendRuns.ExportConfluence` | internal/ledger/cache.go:126-142 | any interleaving of threads of charges with each other and with any operations on other keys leaves a key's account as their serial execution alone does |
| `SpendRuns.CoherenceRestored` | internal/ledger/cache.go:140-169 | whatever state Sync installed, the first later spend or reset of a key makes its state the one its totals call for, and it stays so |
| `SpendRuns.SeverityMonotone` | internal/ledger/cache.go:135-140 | from a coherent state, while the key sees only non-negative spends, its severity never drops, whatever happens to other keys in between |
| `SpendRuns.CrossingSpend` | internal/ledger/cache.go:135-140 | the operation that first leaves a key Exceeded is a spend of that key, and leaves its total below the budget plus that spend's cost |
| `SpendRuns.BoundedOvershoot` | internal/ledger/cache.go:126-142 | a run that exceeds a budget, other keys being synced, reset or deleted meanwhile, does so at one spend of that key: never before, always after, with the total at that moment in [budget, budget + that spend's cost) |
| `Webhook.Handle` | internal/webhook/admission.go:31-78 | BadRequest exactly for a create whose pod does not decode, Allow for anything but a create; otherwise Deny exactly on Exceeded or Suspended, Warn exactly on SoftLimit, of the pod's ServiceAccount, "" read as "default" |
| `Webhook.AdmissionRefinesHistory` | internal/webhook/admission.go:44-77 | after any log of cache operations the webhook's answer is the verdict a pure function reads off the key's own history |
| `Webhook.DeniedExactlyWhen` | internal/webhook/admission.go:57-77 | a pod is denied exactly when its quota is live, its deadline has not passed, and the last operation on the state was a Sync of Exceeded or Suspended or a spend bringing the total to a positive budget |
| `Webhook.WarnedExactlyWhen` | internal/webhook/admission.go:57-77 | a pod is admitted with a warning exactly when its quota is live, its deadline has not passed, and the last operation on the state was a Sync of SoftLimit or a spend leaving the total below the budget and at or above the soft limit, 80 percent by default |
| `Webhook.OtherwiseAllowed` | internal/webhook/admission.go:57-77 | every other decoded creation is allowed |
| `Enforcement.StateAfterSync` | internal/ledger/cache.go:72-142 | after a Sync and any log with spends of the key, in numbers: Exceeded exactly from a positive budget on, SoftLimit exactly below it and from the spec's percentage on, 80 percent by default, Active otherwise |
| `Enforcement.DeniedAfterSync` | internal/ledger/cache.go:87-142 | after a Sync and any log that only spends from the key, before the deadline, a pod is denied exactly when: without a spend, the status said Exceeded or Suspended; from the first spend on, the total has reached a positive budget |
| `Enforcement.SpendingExceedsExactlyWhen` | internal/ledger/cache.go:72-80 | some spending leaves a synced quota Exceeded exactly when AsInt64 yields a positive budget; with any other budget the key keeps the synced state up to its first spend and is Active from then on |
| `Enforcement.HalfDollarBudgetDeniesUntilSpend` | internal/ledger/cache.go:72-91 | a concrete quota of half a dollar whose status says Exceeded: denied after the Sync, allowed after a spend of any size |
| `Enforcement.SuspensionDeniesExactlyWhen` | internal/ledger/cache.go:135-141 | after a Sync of Suspended and before the deadline, a pod is denied exactly while no spend of the key has landed or the total has reached a positive budget |
| `Enforcement.SuspensionWrittenExactlyWhen` | internal/controller/tokenquota_controller.go:80-89 | a reconcile writes Suspended exactly when it read Suspended and no spend of the key landed between its Sync and its Get |
| `Enforcement.SuspensionLastsExactlyWhen` | internal/ledger/cache.go:87-95 | over a renewal-free run the status stays Suspended exactly as long as no spend of the key lands in the Sync-to-Get window of a reconcile whose write succeeds, and exactly then the next Sync installs Suspended again |
| `SpendFormat.DigitsRoundTrip` | internal/controller/tokenquota_controller.go:82 | decimal digits printed and parsed give the number back |
| `SpendFormat.PaddedRoundTrip` | internal/controller/tokenquota_controller.go:82 | a zero-padded fraction printed and parsed gives the number back |
| `SpendFormat.RoundMicros` | internal/controller/tokenquota_controller.go:82 | printing rounds to the nearest micro-dollar: the error is at most half of one |
| `SpendFormat.ParsePrint` | internal/ledger/cache.go:92-94 | parsing the six-decimal print of any amount gives it rounded to a micro-dollar, an error of at most 5e-7, negative amounts included |
| `SpendFormat.MicrosRoundTrip` | internal/controller/tokenquota_controller.go:82 | a whole number of micro-dollars survives print and parse exactly |
| `SpendFormat.PrintParsePrint` | internal/controller/tokenquota_controller.go:82 | print, parse, print is print, for every non-negative amount |
| `SpendFormat.PrintInjective` | internal/controller/tokenquota_controller.go:82 | different micro-dollar amounts never print alike |
| `SpendFormat.PrintedShape` | internal/controller/tokenquota_controller.go:82 | what is printed: digits without a needless leading zero, a dot and six digits, a minus sign exactly for negative amounts |
| `SpendFormat.TiesToEven` | internal/controller/tokenquota_controller.go:82 | halfway between two micro-dollars the even one is printed |
| `SpendFormat.ParseExactly` | internal/ledger/cache.go:92-94 | which texts are read as an amount: a plain decimal with at least one digit behind at most one sign, the sign deciding the side of zero, and no other |
| `Controller.StatusStore.Update` | internal/controller/tokenquota_controller.go:61-89 | a status write takes effect exactly when its outcome is success |
| `Controller.Reconciler.SyncAndYield` | internal/controller/tokenquota_controller.go:47 | the ledger after Sync and any spends landing before the next ledger access |
| `Controller.Reconciler.Renew` | internal/controller/tokenquota_controller.go:50-65 | reset of the ledger entry, zeroed status with the next deadline, error when the write fails, requeue at the deadline otherwise |
| `Controller.Reconciler.EnsureDeadline` | internal/controller/tokenquota_controller.go:68-77 | a missing deadline is set one period ahead, with Active for a missing state, and written before anything is reported |
| `Controller.Reconciler.ReportEntry` | internal/controller/tokenquota_controller.go:80-92 | the entry copied into the status field by field and written, nothing written without an entry, and failure on anything but success and conflict |
| `Controller.Reconciler.Report` | internal/controller/tokenquota_controller.go:67-101 | the status reported from the entry, conflicts on that write ignored, other failures returned, and the requeue time |
| `Controller.Reconciler.Reconcile` | internal/controller/tokenquota_controller.go:34-102 | ledger, durable status and result after a reconcile, for every read outcome, both write outcomes and all spends landing between its steps |
| `Accounting.EntryAtGet` | internal/controller/tokenquota_controller.go:80 | the entry read after Sync is the synced status plus exactly the spends since |
| `Accounting.ExactAccounting` | internal/controller/tokenquota_controller.go:47-92 | the spend written is the spend read plus exactly the spends landing between Sync and Get, to six decimals; tokens and runs exact; state recomputed exactly if there was such a spend; the ledger found has no influence |
| `Accounting.RoundTally` | internal/controller/tokenquota_controller.go:34-102 | what one reconcile makes the status account for, for every outcome of its writes: nothing after a written renewal, the window added by a written report, unchanged otherwise |
| `Accounting.DurableTally` | internal/controller/tokenquota_controller.go:34-102 | over any run of reconciles, renewals and failing writes included, the durable spend is the sum of the windows of the written reports since the last written renewal (on top of the initial value without one), within 5e-7 per reconcile; tokens and runs exactly |
| `Accounting.DurableSpend` | internal/controller/tokenquota_controller.go:47-92 | over any renewal-free run, whatever its writes' outcomes, the durable spend is the initial one plus the spends inside the Sync-to-Get windows of the reconciles whose report was written, within 5e-7 per reconcile; tokens and runs exactly |
| `Accounting.DurableSpendExact` | internal/controller/tokenquota_controller.go:47-92 | for whole micro-dollar amounts the same law without any rounding error |
| `Accounting.ConservedExactlyWhen` | internal/ledger/cache.go:87-95 | over a renewal-free run the durable run count accounts for every spend exactly when each landed in the Sync-to-Get window of a reconcile whose write succeeded; the tokens, when the others carried none; the durable amount misses what those cost, to 5e-7 per reconcile |
| `Accounting.AmountConservedExactlyWhen` | internal/ledger/cache.go:87-95 | where the amounts in the windows are whole micro-dollars, the durable amount accounts for everything exactly when every spend missed was free |
| `Accounting.SpendAfterGetIsLost` | internal/controller/tokenquota_controller.go:47-89 | a run that loses a spend: landing after the Get it counts in the ledger against the budget, and after the next reconcile neither status nor ledger has it |
| `Accounting.QuiescentReconciles` | internal/controller/tokenquota_controller.go:80-92 | a second reconcile with no spend in its window writes the same spend text, tokens, runs, state and deadline as the first |
| `Accounting.DeletionClearsExactlyWhen` | internal/controller/tokenquota_controller.go:38-42 | deleting a quota removes its target's entry exactly when quota and ServiceAccount have the same name |
| `Accounting.FailOpen` | internal/ledger/cache.go:116-119 | past a deadline every Check answers Active along any log whose Syncs carry no later deadline |
| `Accounting.FailingRounds` | internal/controller/tokenquota_controller.go:50-63 | any number of renewals with a failed write leave the status as it was, whatever happens in between; their ledger effect is the concatenation of their steps and the gaps |
| `Accounting.FailingDeadlines` | internal/controller/tokenquota_controller.go:47-63 | the Syncs among those steps carry no deadline later than the passed one, unless a gap's own Sync of the key does |
| `Accounting.FailOpenThroughFailures` | internal/controller/tokenquota_controller.go:50-63 | past the deadline, through any number of failed renewals with anything landing anywhere but a Sync of the key with a later deadline, Check answers Active at every point of the interleaving |
| `Accounting.SuccessfulRenewal` | internal/controller/tokenquota_controller.go:54-64 | a successful renewal write leaves the renewed status stored, whatever was stored before |
| `Accounting.FirstSuccessfulRenewal` | internal/controller/tokenquota_controller.go:50-64 | after any number of renewals with a failed write and anything in between, the first successful one leaves a status that parses to zero, Active, with a deadline later than the reading it came from |
| `Renewal.OneVisit` | internal/controller/tokenquota_controller.go:50-101 | a reconcile after the deadline renews for an hour, a day or a month from its reading and asks to return at the new deadline; one by the deadline keeps it and asks to return at it if that is less than five minutes ahead, in five minutes otherwise |
| `Renewal.ResultExactly` | internal/controller/tokenquota_controller.go:34-102 | the result of every reconcile of an existing quota: an error exactly when the renewal or initial write fails or the report fails with anything but a conflict, otherwise the requeue time, written out in nanoseconds |
| `Renewal.VisitsApart` | internal/controller/tokenquota_controller.go:94-101 | reconciles that do not renew come five minutes apart or more, unless the later one is at or past the deadline |
| `Renewal.RenewalProgress` | internal/controller/tokenquota_controller.go:50-101 | in every punctual schedule whose reconciles take at most delta, each deadline is followed by a renewal at most five minutes and delta after it, and by none before |
| `Renewal.NextDeadline` | internal/controller/tokenquota_controller.go:54-64 | one renewal moves the deadline by one period and at most five minutes and two delta more |
| `Renewal.DeadlineDrift` | internal/controller/tokenquota_controller.go:111-120 | for hourly and daily quotas whose reconciles take at most delta, less than a period, the k-th deadline lies after k periods and at most k periods and k times (five minutes + two delta) from the first, for every k |
| `Renewal.DeadlinesIncrease` | internal/controller/tokenquota_controller.go:54-60 | a reconcile keeps the deadline or moves it past its own clock reading |
| `Renewal.FirstDeadline` | internal/controller/tokenquota_controller.go:68-77 | a quota without a deadline has one, a period ahead, after its first reconcile, and Active is written first if it had no state |
| `Renewal.ReturnIsAfterSync` | internal/controller/tokenquota_controller.go:47-101 | a reconcile leaves the ledger as its Sync and then only spends and a reset of the key do |
| `Renewal.DeadlineInForce` | internal/ledger/cache.go:97-119 | from a reconcile's Sync to the next Sync, Check answers the entry's state up to the deadline that reconcile read and Active after it, also when the reconcile wrote a new one |
| `Renewal.NotEnforcedOnRequeuesAlone` | internal/controller/tokenquota_controller.go:50-101 | once a quota has been renewed, reconciles that begin no earlier than asked for never let it be enforced again: after the renewal every Check that reads the clock later than the last Sync did answers Active, whatever is spent |
| `Renewal.TwoHourlyVisitsNeverEnforce` | internal/controller/tokenquota_controller.go:50-101 | such a schedule exists: an hourly quota reconciled every two hours is renewed by each reconcile and never enforced |
| `Renewal.RenewalSuspendsEnforcement` | internal/controller/tokenquota_controller.go:50-65 | after a renewing reconcile Check answers Active for every later spend until the next Sync |
| `Pricing.SortIsStable` | internal/pricing/pricing.go:95-99 | resort yields the stable order: longest pattern first, same entries, equal lengths in their old order |
| `Pricing.StableSortUnique` | internal/pricing/pricing.go:95-99 | a longest-first table that keeps the order among equally long patterns is unique |
| `Pricing.Estimator.constructor` | internal/pricing/pricing.go:65-72 | whatever order the map iteration takes, the table lists exactly the given prices, each pattern once, longest first; the fallback is 0.003 and 0.015 USD per 1,000 tokens |
| `Pricing.Estimator.Resort` | internal/pricing/pricing.go:95-99 | the table stays free of duplicates, is longest first, has the same entries, and equally long patterns keep their order; by StableSortUnique only one table does |
| `Pricing.Estimator.Set` | internal/pricing/pricing.go:80-89 | the table with a known pattern's price overwritten in place, or the unknown pattern added and the table sorted; it stays longest first and free of duplicates |
| `Pricing.SetUpdatesTable` | internal/pricing/pricing.go:80-89 | Set keeps patterns unique and longest first and is exactly the map update pattern := price |
| `Pricing.Estimator.Estimate` | internal/pricing/pricing.go:105-112 | matched exactly when some pattern matches; 1000 times the cost is input tokens times the input rate plus output tokens times the output rate, at the rates of the first matching entry or the fallback |
| `Pricing.CostOfTokens` | internal/pricing/pricing.go:22-24 | 1,000 input tokens alone cost the input rate, 1,000 output tokens alone the output rate, and any counts in proportion |
| `Pricing.CostAdds` | internal/pricing/pricing.go:22-24 | cost is additive in both counts |
| `Pricing.UsdIsCharge` | internal/pricing/pricing.go:105-112 | what a tariff charges for a model: both counts at the rates of its first matching entry, or of the fallback |
| `Pricing.CostAtSpecificRate` | internal/pricing/pricing.go:91-112 | both counts are charged at the rates of a longest matching pattern, or of the fallback when none matches |
| `Pricing.MostSpecificWins` | internal/pricing/pricing.go:91-112 | a longest-first table prices a model by one of its longest matching patterns, by none exactly when no pattern matches |
| `Pricing.OverridesKeepMostSpecific` | internal/pricing/pricing.go:65-112 | after any construction order and any sequence of Set calls the price is that of a longest matching pattern, as set last |
| `Pricing.FirstDeliveredWins` | internal/pricing/pricing.go:91-99 | among equally long most specific patterns the one the iteration delivered first is used |
| `Pricing.OrderIndependence` | internal/pricing/pricing.go:91-94 | the estimate is the same for every map iteration order exactly when all most specific patterns for the model carry one price |
| `Pricing.NamesAfterSets` | internal/pricing/pricing.go:80-99 | the patterns that Set adds stand behind the delivered ones of their length, in the order they were first named |
| `Pricing.OverriddenOrderIndependence` | internal/pricing/pricing.go:80-99 | after any Set calls the estimate is the same for every map iteration order exactly when the most specific patterns the iteration delivered carry one price |
| `DefaultPrices.GlobLiteralPrefix` | internal/pricing/pricing.go:107 | a glob match begins with the pattern's leading literals |
| `DefaultPrices.GlobLiteral` | internal/pricing/pricing.go:107 | literal characters of a pattern match themselves |
| `DefaultPrices.GlobStar` | internal/pricing/pricing.go:107 | a star matches exactly the texts without a slash |
| `DefaultPrices.DefaultGlobs` | internal/pricing/pricing.go:38-49 | each default pattern matches exactly its family of model names |
| `DefaultPrices.DefaultPriceOf` | internal/pricing/pricing.go:38-49 | the rates of every model name under the built-in table, family by family with the rates written out, and none for the rest, in every iteration order |
| `DefaultPrices.DefaultPatternsDisjoint` | internal/pricing/pricing.go:38-49 | two equally long default patterns never match the same model |
| `DefaultPrices.DefaultTableDeterministic` | internal/pricing/pricing.go:38-49 | the default table's estimate never depends on map iteration order |
| `DefaultPrices.GlobsCanDependOnOrder` | internal/pricing/pricing.go:91-94 | a table of two globs of one length that both match a model and differ in price depends on the iteration order |
| `DefaultPrices.DefaultRates` | internal/pricing/pricing.go:38-49 | every default rate lies between 0.000075 and 0.075 USD per 1,000 tokens |
| `DefaultPrices.DefaultEstimateWithinRates` | internal/pricing/pricing.go:22-36 | every model string, unmatched ones included, costs within the two extreme rates for its tokens |
| `DefaultPrices.TokenUsdSandwich` | internal/pricing/pricing.go:22-49 | from a fresh account every Sync-free run keeps 0.000075 T/1000 <= SpentUSD <= 0.075 T/1000 |
| `DefaultPrices.UnexceededBoundsTokens` | internal/ledger/cache.go:189-202 | an account with a positive budget that is not Exceeded has fewer tokens than the budget buys at the cheapest rate |
| `DefaultPrices.ForcedDenial` | internal/ledger/cache.go:126-142 | a run that reaches that many tokens ends Exceeded |
| `SpanLog.RetainedBeyond` | internal/otelreceiver/receiver.go:132-151 | beyond the last trim's cutoff the trimmed store and the untrimmed log agree, call for call and in order |
| `SpanLog.WindowMatchesFullLog` | internal/otelreceiver/receiver.go:117-151 | for windows up to 600 s Window answers as filtering the never trimmed log would, over any interleaving of records and trims |
| `SpanLog.LongWindowLosesCalls` | internal/otelreceiver/receiver.go:117-151 | every longer window has a run in which Window misses a call |
| `SpanLog.RetentionIsTheLimit` | internal/heuristic/engine.go:59-60 | a window length is answered exactly in every run precisely up to ten minutes |
| `SpanLog.StoreIsolation` | internal/otelreceiver/receiver.go:110-130 | a pod's stored calls depend on its own calls and the trims only |
| `SpanStorage.SpanStore.constructor` | internal/otelreceiver/receiver.go:105-108 | a new store holds no call |
| `SpanStorage.SpanStore.Record` | internal/otelreceiver/receiver.go:110-115 | the call appended to that pod, in place or into a larger buffer, every other pod untouched |
| `SpanStorage.SpanStore.Window` | internal/otelreceiver/receiver.go:117-130 | the pod's calls strictly newer than now minus the window, in order |
| `SpanLog.NewerExactly` | internal/otelreceiver/receiver.go:125-128 | filtering keeps exactly the calls after the cutoff, each as often as it occurs |
| `SpanLog.WindowHolds` | internal/otelreceiver/receiver.go:117-130 | a window holds exactly the pod's stored calls less than its seconds old, in nanoseconds |
| `SpanStorage.SpanStore.TrimPod` | internal/otelreceiver/receiver.go:138-149 | one pod's slice compacted, or the pod dropped when nothing is left |
| `SpanStorage.SpanStore.Trim` | internal/otelreceiver/receiver.go:134-151 | every pod filtered, empty ones dropped, in whatever order the map iteration takes |
| `SpanStorage.Append` | internal/otelreceiver/receiver.go:115 | append extends the slice and disturbs no earlier element |
| `SpanStorage.CompactNewer` | internal/otelreceiver/receiver.go:139-144 | compacting into the buffer being read is an order-preserving filter |
| `Receiver.AttrStrAt` | internal/otelreceiver/receiver.go:244-251 | the first string value under the key, "" without one |
| `Receiver.AttrInt64At` | internal/otelreceiver/receiver.go:257-277 | the first readable number under the key, passing over unreadable ones, none without one |
| `Receiver.ParseIntOfDigits` | internal/otelreceiver/receiver.go:263 | decimal text with or without a sign is read exactly inside the 64-bit range, both ends included, and rejected outside |
| `Receiver.ParseIntRejects` | internal/otelreceiver/receiver.go:263 | a text without digits or with anything else behind at most one sign is no integer |
| `Receiver.Truncate` | internal/otelreceiver/receiver.go:268 | a double is truncated toward zero |
| `Receiver.Handler.RecordSpend` | internal/otelreceiver/receiver.go:212-240 | nothing without ledger, prices, ServiceAccount or usage attributes, otherwise one spend of the estimated cost |
| `Receiver.Handler.RecordToolCall` | internal/otelreceiver/receiver.go:192-195 | a span that names a tool adds one call to its pod, any other span nothing |
| `Receiver.Handler.HandleSpan` | internal/otelreceiver/receiver.go:192-196 | one span's tool call goes to the store and its bill to the ledger |
| `Receiver.Handler.ServeHTTP` | internal/otelreceiver/receiver.go:172-204 | status code, store and ledger after a request: exactly the spans of resources naming namespace and pod, in order; what is stored does not depend on cost tracking |
| `Attribution.TextIs` | internal/otelreceiver/receiver.go:244-251 | an attribute's text is the first string value under exactly that key, "" without one |
| `Attribution.NumberIs` | internal/otelreceiver/receiver.go:257-277 | an attribute's number is that of the first value under the key that reads as one: integer text, else a double without its fraction, else string text |
| `Attribution.PlacesExactly` | internal/otelreceiver/receiver.go:184-192 | a request handles a span exactly when its resource names a namespace and a pod, each once and in the order of the request |
| `Attribution.CallOfItem` | internal/otelreceiver/receiver.go:185-195 | a span's call is stored under its resource's k8s.namespace.name and k8s.pod.name, with the tool of gen_ai.tool.name, else tool.name, else the span's name, at its start time or now; none without a tool |
| `Attribution.ChargeOfItem` | internal/otelreceiver/receiver.go:187-236 | a span is charged to its resource's k8s.namespace.name and k8s.serviceaccount.name, with the tokens of gen_ai.usage.input_tokens and gen_ai.usage.output_tokens and the cost of gen_ai.request.model, unknown without one; nothing without a ServiceAccount or usage |
| `Attribution.RequestYields` | internal/otelreceiver/receiver.go:184-240 | what a request records and charges is what its handled spans yield, one after the other |
| `Attribution.ServeRequest` | internal/otelreceiver/receiver.go:172-240 | store and ledger after a request have taken the calls and charges of exactly its handled spans, attributed as above; 405 and 400 leave them as they were |
| `ExportRuns.BillsSum` | internal/otelreceiver/receiver.go:212-240 | the charges of a key sum to the cost, tokens and number of the billable spans attributed to it |
| `ExportRuns.SpendsCharge` | internal/otelreceiver/receiver.go:184-202 | what is charged does not depend on the clock |
| `ExportRuns.BatchConservation` | internal/otelreceiver/receiver.go:184-240 | after a batch each existing account has grown by exactly the sums over its billable spans, one without such a span is untouched, none appears |
| `ExportRuns.UnwiredBillsNothing` | internal/otelreceiver/receiver.go:157-166 | without ledger or prices a request performs no ledger operation |
| `ExportRuns.ItemsConcat` | internal/otelreceiver/receiver.go:184-202 | splitting a batch of resources splits its spans |
| `ExportRuns.ConcurrentExports` | internal/otelreceiver/receiver.go:184-240 | any interleaving of several requests' ledger steps with each other and with any operations on other keys leaves an account as one request carrying all their spans does |
| `ExportRuns.PermutedBatches` | internal/otelreceiver/receiver.go:184-240 | any permutation of the spans charges every key the same |
| `ExportRuns.DefaultBillWithinRates` | internal/otelreceiver/receiver.go:217-236 | with the default table a span with non-negative counts is billed within the extreme rates |
| `EndToEnd.ExportsWithinRates` | internal/otelreceiver/receiver.go:184-240 | so is every spend of whole exports |
| `EndToEnd.ExportsExceed` | internal/otelreceiver/receiver.go:184-240 | one export that bills a fresh account the tokens its budget buys at the cheapest rate leaves it Exceeded, its deadline unchanged |
| `EndToEnd.ExportsForceDenial` | internal/webhook/admission.go:50-65 | once concurrent exports have billed a fresh account the tokens its budget buys at the cheapest rate, whatever the models and whatever happens to other accounts meanwhile, the webhook denies its pods until the deadline |
| `Engine.MaxSameToolCount` | internal/heuristic/engine.go:128-140 | the highest count of any single tool: an upper bound that is attained, and at least a threshold exactly when some tool is |
| `Engine.Engine.SetCooldown` | internal/heuristic/engine.go:149-154 | the cooldown starts now; the duration passed has no effect |
| `Engine.Engine.EvaluatePod` | internal/heuristic/engine.go:103-117 | a probe fires exactly when the pod is off cooldown and its window trips the threshold, and then starts the cooldown |
| `Engine.Engine.Evaluate` | internal/heuristic/engine.go:68-125 | cooldowns and remediations after the nested loops over policies and pods, with skipped policies and failed listings |
| `Engine.Engine.Tick` | internal/heuristic/engine.go:58-63 | trim to ten minutes, then evaluate |
| `Detection.FirstLooperIsFirst` | internal/heuristic/engine.go:98-116 | the first probe of a pod that loops, none exactly when none does |
| `Detection.TickExactness` | internal/heuristic/engine.go:98-116 | one evaluation remediates a pod exactly when it was off cooldown and loops under some probe, once, under the first such probe; only then its cooldown changes, to now |
| `Detection.ProbesExactly` | internal/heuristic/engine.go:76-102 | the probes are exactly the Running pods listed for policies with a heuristic section, a valid selector and a successful listing |
| `Detection.FirstLooperIsEarliestPolicy` | internal/heuristic/engine.go:76-116 | the remediation happens under the earliest policy in order under which the pod loops |
| `LoopRuns.EvidenceCounts` | internal/heuristic/engine.go:107 | the distinct recorded calls in a window are as many as the window of the untrimmed log has |
| `LoopRuns.TrippedEvidence` | internal/heuristic/engine.go:107-108 | a tripped threshold is backed by at least that many distinct recorded calls |
| `LoopRuns.FireKeepsInv` | internal/heuristic/engine.go:115-118 | starting a remediation keeps all remediations of a pod two minutes apart and without a common call |
| `LoopRuns.RunKeepsInv` | internal/heuristic/engine.go:58-125 | the invariant of every run of exports and engine steps with windows up to two minutes |
| `LoopRuns.RemediationsSpaced` | internal/heuristic/engine.go:142-154 | two remediations of one pod are at least two minutes apart, in every run and for any windows |
| `LoopRuns.DisjointEvidence` | internal/heuristic/engine.go:98-154 | with windows up to two minutes and no call from the future, no recorded call lies in the windows that triggered two remediations of one pod |
| `LoopRuns.RemediationsBounded` | internal/heuristic/engine.go:98-154 | the thresholds of all remediations of a pod together never exceed the calls ever recorded for it |
| `LoopRuns.LongWindowFiresTwice` | internal/heuristic/engine.go:115-153 | every longer window has a run in which one call remediates its pod twice |
| `LoopRuns.TwoMinutesIsTheLimit` | internal/heuristic/engine.go:146-153 | a bound on the windows keeps evidence disjoint in every run exactly up to two minutes |
| `Sampling.EvaluationIsARun` | internal/heuristic/engine.go:76-122 | an evaluation with equal clock readings is the run of its check, sample and fire steps |
| `Sampling.WindowHoldsRecent` | internal/heuristic/engine.go:107-108 | at a tick, calls newer than the cutoff are in the window although the store was trimmed |
| `Sampling.SamplingCompleteness` | internal/heuristic/engine.go:54-125 | with ticks at most I apart, threshold calls recorded by r whose oldest plus the window outlives r + I put a probed pod on cooldown at the first tick from r on |
| `PodIsolation.PodRunIsolation` | internal/heuristic/engine.go:98-154 | over any run a pod's stored calls and cooldown are those of the run with all other pods taken out |
| `PodIsolation.PairRunIsOwnRun` | internal/otelreceiver/receiver.go:113-115 | with slash-free namespaces the run of a (namespace, pod) pair is the run of its key |
| `PodIsolation.OtherPairsInvisible` | internal/otelreceiver/receiver.go:113-130 | over whole runs the calls of and ticks over any number of other (namespace, pod) pairs change neither a pair's windows nor its cooldown |
| `Remediation.FirstNamedIsFirst` | internal/remediation/executor.go:108-131 | the owner walk takes the first reference of the kind |
| `Remediation.ReportsWhatItDid` | internal/remediation/executor.go:38-147 | at most one of delete and scale is attempted; EvictPod is reported exactly when the delete was; SuspendWorkload exactly when wanted and the owner chain was not seen to end early; failed exactly when nothing was attempted or the API server refused |
| `Remediation.SuspendReportIsTrueExactlyWhen` | internal/remediation/executor.go:120-146 | a reported SuspendWorkload attempted the scale exactly when both lookups succeeded, on the first Deployment of the first ReplicaSet owner |
| `Remediation.SuspendReportedWithoutAttempt` | internal/remediation/executor.go:120-123 | a concrete pod for which SuspendWorkload is reported, failed, and nothing was attempted |
| `Remediation.Executor.Evict` | internal/remediation/executor.go:92-96 | one delete attempt for that pod |
| `Remediation.Executor.Suspend` | internal/remediation/executor.go:105-147 | reported action, failure and attempt of the owner walk for every list of owners and lookup outcome |
| `Remediation.Executor.UpdateStatus` | internal/remediation/executor.go:149-155 | detection count plus one, time and pod recorded, one status write |
| `Remediation.Executor.Remediate` | internal/remediation/executor.go:38-90 | the decided attempt, then the event if asked for with the applied action, then the status write, whatever the action's outcome |
| `Remediation.TickCounts` | internal/remediation/executor.go:82-84 | after the writes of one tick the stored count has caught up exactly when the last write succeeded |
| `Remediation.RemediateJob` | internal/remediation/executor.go:38-90 | one remediation adds one status write to the attempts, with the count one higher |
| `Remediation.RemediateAll` | internal/remediation/executor.go:38-90 | a tick's remediations under one policy count one by one in its copy, and their status writes are those of TickWrites |
| `Remediation.RunTicks` | internal/remediation/executor.go:38-155 | ticks of remediations, each on a copy freshly listed: one status write per remediation, and the stored count reaches the number of remediations exactly when every tick's last write succeeded, and never exceeds it |
| `Remediation.DetectionCountExactlyWhen` | internal/remediation/executor.go:149-155 | the same law about the outcomes of the writes: the count never exceeds them and equals their number exactly when every tick's last one succeeded |

## Left out

- HTTP and JSON decoding, TLS, flags, manager wiring, logging and shutdown: a request starts as a decoded tree of resource spans, a pod as its ServiceAccount name.
- The Kubernetes client, informers, work queue and events: reads, listings and writes are given outcomes; only one reconcile runs at a time, as the controller is configured, so only spends land between its steps.
- float64 rounding and int64 overflow in the ledger and of token sums: reals and integers are used, so sums are exact and no bit-exact claim is made; negative zero does not exist.
- SpendFormat.Parse: does not read exponents, hexadecimal, infinities or NaN, which the program never writes.
- Conversion of a double outside the 64-bit range to an integer, which Go leaves to the implementation.
- A time.Duration overflow for windows of centuries, sub-second truncation of serialised times, time zones.
- Accounting.AmountConservedExactlyWhen: restricted to whole micro-dollar windows, because rounding can hide or feign a loss below 5e-7 per reconcile; Accounting.ConservedExactlyWhen bounds the loss for all amounts.
- The length of a pattern in bytes: patterns are compared by characters, which is the same for ASCII patterns such as the default ones.
- What a requeue time that is not positive does: it asks for nothing, so schedules are stated for hourly and daily quotas whose reconciles take less than a period.
- The length of calendar months: one month later is a parameter, required to lie in the future where a deadline must.
- path.Match beyond literals and `*`: the pricing theorems hold for any match relation, the default table needs only these.
- The growth policy of append, which Go does not specify: a full buffer is replaced by a larger one.
- One reading of the clock per span: the time substituted for an unreadable timestamp and the ledger's update time agree within a span.
- The ticker loop of the engine and its default interval: ticks are events of a run, with the bound on their distance as a hypothesis.
- The call from the engine into the executor: an evaluation yields the pods it hands over, in order, and the executor is modelled on its own.
- Cache.Len, the update time's use, the enforcement action, per-model limits and the other spec fields nothing enforces.
- The semantic detectors, the LivelockPolicy reconciler, generated code, charts, scripts and documentation.

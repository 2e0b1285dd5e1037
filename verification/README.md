# Shahkar panel: a verified model of its hard parts

This project models the parts of the Shahkar proxy panel whose correctness rests on state kept
across many steps: who is the leader, which users a node serves, how many bytes are billed, what
a wallet holds, which payment was credited, which flow is blocked. Each part is a state machine or
a data transformation with the branches, constants and error paths of the code, and the theorems
speak about every input, every interleaving or every run.

| file | what it models |
|---|---|
| `LeaderElection.dfy` | the Redis lease that elects one worker, step by step and interleaved |
| `SingBoxConfig.dfy`, `SingBoxProtocol.dfy`, `SingBoxRestart.dfy`, `SingBoxEngine.dfy` | the sing-box agent: rendering, revocation, generations, keeping the engine when nothing changed, and what the engine goes on serving |
| `UsageBaselines.dfy` | cumulative counters turned into deltas, with peek, commit, resets and lost baselines |
| `Tables.dfy`, `Ledger.dfy` | the rows of the commercial side, wallets, commissions, invoices, traffic packages |
| `UsageBilling.dfy` | pay-as-you-go bills and the three tests for a reseller that cannot pay |
| `Quota.dfy` | data limits of users, edits, plans, suspension and restoration of a reseller's users |
| `Payments.dfy` | payment intents from creation to a final state |
| `PanelRuns.dfy`, `TrafficRuns.dfy`, `UserRuns.dfy`, `ResellerRuns.dfy` | whole runs of all of these operations mixed: money, traffic, users, commissions and caps |
| `BillingGuard.dfy` | the guard that disconnects local users when billing stays blind |
| `ResellerTariffs.dfy` | wholesale tariffs: matching, limit locks, charging an edit once |
| `RoutingRules.dfy`, `RoutingGuards.dfy` | the egress and family guards' rewriting of Xray routing |
| `PeerSync.dfy` | resumable WireGuard peer sync |
| `UsageUpsert.dfy` | merged and chunked usage writes |
| `Base.dfy`, `Sorting.dfy` | shared vocabulary |

How to read it. Code that updates fields or rows is a class (`Process`, `SingBoxManager`,
`CumulativeByteTracker`, `Session`, `BillingGuardState`, `AccountRow`, `XrayConfig`,
`WireGuardManager`, `UsageTable`) whose methods are proved equal to a function on the abstract
state (`AfterBill`, `AfterWrite`, `AfterTick` and so on); the theorems are about runs of those
functions. Clocks, checks of external programs, ownership ratios and results of other services
are parameters, so the theorems hold whatever they are. Integers are unbounded, as in Python;
money and bytes are integers; the code's floor divisions are kept as they are, always with a
positive divisor.

Where a promise does not hold for every input, the model keeps the code's behaviour and a theorem
gives the exact condition:

- A leader is unique exactly as long as no clock step passes the lease's expiry while its owner
  relies on it (`TimelyIffSafe`). Relying includes holding a positive outcome that is not yet
  copied into the flag, a case the flag alone does not show.
- Keeping a running engine serves what restarting it would, at every point of a run whose agent
  restarts fall between applies, if and only if it never applies a spec without inbounds to
  an engine that an earlier agent process started and an apply has since kept
  (`SkippingRefinesRestartingIff`; `KeptOrphanOutlivesEmptySpec` gives such a run). If the
  agent restarts inside an apply, applying again is served if and only if the old engine had died
  or already served the configuration (`RestartInsideApply`).
- The running engine is free of revoked users, or a restart is due, throughout a run if and only if
  no due restart is lost: by a thread that takes a spec together with a queued restart, or by a
  revocation that finds nothing left to remove from the file (`CoveredThroughoutIff`). In
  `RefreshSwallowsRestart` the queues drain and the old engine serves a revoked user.
- Wallets are never negative throughout a run if and only if no operator's adjustment goes below the
  balance (`SolventThroughoutIff`).
- Giving an account more time than was paid for can be free. `CostBeyondPaidIff` says exactly when:
  half a day or less rounds to no day, and an hour more on a running period is no extension. Any
  number of such edits costs nothing while the expiry moves on without bound
  (`ShortStepsCostNothing`, `HourlyStepsCostNothing`).
- Lowering a user's limit below the usage drops bytes exactly when there is no overage
  (`EditLimitConservesIff`).
- Suspended users are disabled throughout a run if and only if nothing sets a status by hand,
  renews a plan, fires a next plan or activates in bulk on a suspended user
  (`SuspendedStayDisabledIff`): those paths do not look at the suspension mark, so a customer who
  pays for a renewal is active again (`RenewalLiftsSuspension`). The mark itself survives, and the
  next pass suspends the user again (`NextPassSuspendsAgain`).
- A portal renewal is applied before its wholesale charge; when the charge fails the account has
  the new period and the payment stays open (`RenewalComesBeforeItsCharge`).
- The limit report agrees with the clamp exactly on limits that are absent or not negative
  (`ReportAgreesIffLimitNotNegative`); the guard's recovery agrees with the quota rule except on
  negative overage or limits (`RecoveryAgreesIff`).
- Submitting a charged edit again at once is free except when a null volume left the account's
  limited volume in place (`ImmediateResubmissionIsFreeIff`).
- A guard rule is left without a target outbound if and only if there are guard rules and the
  outbounds are missing, or none had the exact name to begin with and either one is spelled in
  another case or the egress guard was never on (`GuardRulesDangleIff`).

Where code and naming disagree the model follows the code: firing a next plan adds the unused
traffic when the flag that asks for it is off (app/db/crud.py:1177-1178).

## Model

| member | source | states |
|---|---|---|
| LeaderElection.MutualExclusion | app/ha.py:48-113 | over every interleaving of SET-NX, GET, SET, exceptions, flag writes and clock steps of any number of instances with distinct ids, at most one started instance has its flag set, if no clock step passes the expiry of a lease its owner relies on |
| LeaderElection.RunKeepsInv | app/ha.py:48-80 | along every timely run, whoever leads, is about to overwrite the key, or holds a positive outcome is the live owner of the key |
| LeaderElection.LateTickAdmitsTwoLeaders | app/ha.py:53-60 | any untimely clock step can be continued, without further clock steps, to two simultaneous leaders |
| LeaderElection.TimelyIffSafe | app/ha.py:48-80 | with two instances, a clock step is timely if and only if every continuation without clock steps keeps a single leader |
| LeaderElection.IntervalBelowLifetime | app/ha.py:51-66 | for every configured TTL, including zero and negative ones, the loop wakes at least a second before the key it set expires, and from three seconds on after a third of the TTL |
| LeaderElection.RaisedSetKeepsTheKey | app/ha.py:49-82 | a command that raises after it reached Redis leaves the key to an instance that does not lead and finds the key its own at its next round |
| LeaderElection.SilentLeaseIsTakenOver | app/ha.py:49-62 | however long a run goes on without anyone setting the key, whoever asks for it gets it if and only if the configured TTL, at least two seconds, has passed since it was last set |
| LeaderElection.PunctualInstancesElectOneLeader | app/ha.py:65-80 | if every round is late by less than a second, there is never more than one leader, whatever the TTL |
| LeaderElection.RoundSteps | app/ha.py:48-62 | an undisturbed round wins exactly when the key is free or its own, and then the lease is renewed for the full lifetime |
| LeaderElection.Process.TryAcquireOrRenew | app/ha.py:48-62 | the code's three commands end in the lease and outcome of the protocol's steps; it wins iff the key was free or its own, and otherwise leaves the lease alone |
| LeaderElection.Process.Round | app/ha.py:65-80 | an unreachable Redis makes the instance a follower; otherwise the flag is the round's outcome |
| LeaderElection.Process.RenewLoop | app/ha.py:65-113 | after any number of rounds a set flag means the lease is the instance's own, counted from the last round |
| LeaderElection.Redis.SetIfAbsent | app/ha.py:54 | the lease is taken exactly when none is live |
| SingBoxConfig.FingerprintIffSame | node/singbox.py:252-274 | two configurations have the same digest input if and only if they differ at most in the order of user and statistics lists |
| SingBoxConfig.StripCleans | node/singbox.py:665-710 | stripping newly revoked identifiers from a file leaves it clean of them and of all earlier ones |
| SingBoxConfig.StrippedSpecRendersClean | node/singbox.py:134-249 | a spec filtered by the revoked set renders to a configuration with no matching user entry and no matching counted name, after merging, de-duplication and sorting |
| SingBoxProtocol.RevokedNeverOnDisk | node/singbox.py:520-757 | over every interleaving of scheduling, taking, writing, checking, settling, finishing, revoking, unrevoking and engine deaths, the file never holds a currently revoked user and every engine start loaded a file clean of the set revoked then |
| SingBoxProtocol.RevokedNamesStayOff | node/singbox.py:520-757 | once names are revoked, and whatever interleaving follows without an un-revocation, no entry and no counted name of the file is one of the names, by itself, after the first dot, or as password or uuid, and no engine is started on a file that has one |
| SingBoxConfig.StripRemovesExactlyTheNamed | node/singbox.py:402-432 | stripping a file removes exactly the entries whose name, name after the first dot, password or uuid is the text of a name between its blanks, and keeps the rest in order |
| SingBoxConfig.SpecStripRemovesExactlyTheNamed | node/singbox.py:402-432 | the same for a queued spec |
| SingBoxConfig.RenderedFileIs | node/singbox.py:134-208 | the rendered file holds each user's own name and secrets in order, whatever the inbounds and the revoked set |
| SingBoxProtocol.RevocationMeans | node/singbox.py:665-748 | a revocation queues a restart if and only if it changed the file or the queued spec, and supersedes running applies if and only if some name is not blank |
| SingBoxProtocol.StepKeepsClean | node/singbox.py:520-757 | the invariant behind it, for every single step |
| SingBoxProtocol.WriteKeepsDiskClean | node/singbox.py:534-551 | an apply's write leaves the file clean whatever spec it carries |
| SingBoxProtocol.RevokeKeepsDiskClean | node/singbox.py:728-757 | revoking extends and unrevoking shrinks what the file is clean of |
| SingBoxProtocol.GenerationCountsRevokes | node/singbox.py:728-748 | an interrupted thread keeps the generation it took, while each effective revocation raises the current one |
| SingBoxProtocol.OvertakenApplyGivesUp | node/singbox.py:570-572 | an apply that wrote before a revocation is given up at its second look at the generation, with engine, file and queue as they are |
| SingBoxProtocol.StaleApplyNeverWrites | node/singbox.py:534-551 | a queued apply taken before a revocation, however many steps of other threads lie between, writes nothing after it |
| SingBoxProtocol.WriteServesExactlyTheUnrevoked | node/singbox.py:534-551 | after a write listener k has the kind, tag and settings of inbound k; its entries are, in order, the name and password of each unrevoked user, with that user's uuid for TUIC and none otherwise; the counted names are those users' names, once each and sorted, and the counted inbounds are the tags |
| SingBoxProtocol.UndisturbedApply | node/singbox.py:520-577 | the four locked blocks of an apply, run in a row, are the sequential apply |
| SingBoxProtocol.KeepUsers | node/singbox.py:712-726 | the loop keeps exactly the users no identifier matches, in order, and counts the rest |
| SingBoxProtocol.KeepEntries | node/singbox.py:665-700 | the same for the entries of a listener on disk |
| SingBoxProtocol.KeepNames | node/singbox.py:700-710 | the same for the counted names |
| SingBoxProtocol.StripInboundsOf | node/singbox.py:712-726 | the nested loop over a spec removes exactly the matching users of every inbound and counts them |
| SingBoxProtocol.StripListenersOf | node/singbox.py:665-700 | the nested loop over the file removes exactly the matching entries of every listener and counts them |
| SingBoxProtocol.SingBoxManager.constructor | node/singbox.py:436-460 | a new agent starts with nothing pending or revoked and does not own an engine it finds |
| SingBoxProtocol.SingBoxManager.TakePending | node/singbox.py:615-634 | taking clears both pending fields and remembers the generation |
| SingBoxProtocol.SingBoxManager.StripPendingSpec | node/singbox.py:712-726 | the pending spec loses exactly the matching users |
| SingBoxProtocol.SingBoxManager.StripUsersFromConfig | node/singbox.py:665-710 | the file ends stripped although it is rewritten only when something was removed |
| SingBoxProtocol.SingBoxManager.RevokeUsers | node/singbox.py:728-748 | afterwards no entry of the file or of the queued spec has as name, as name after the first dot, as password or as uuid the trimmed text of a given name that is not blank, every other entry stays, in order, and exactly those texts are added to the revoked set; with the count reported |
| SingBoxProtocol.SingBoxManager.UnrevokeUsers | node/singbox.py:750-757 | exactly the trimmed texts of the given names leave the revoked set; reports how many there were, and keeps the file clean |
| SingBoxProtocol.SingBoxManager.WriteSpec | node/singbox.py:489-551 | a superseded apply changes nothing; any other writes the file of the spec's unrevoked users, each with its own name, password and uuid, in order |
| SingBoxProtocol.SingBoxManager.Restart | node/singbox.py:759-765 | the engine runs the file on disk, or none runs without a file |
| SingBoxProtocol.SingBoxManager.Apply | node/singbox.py:520-577 | a whole apply leaves that same file unless it is superseded; sessions are kept only when the new file equals the old one up to order, and a restart serves exactly the file |
| SingBoxRestart.FinishedApplyIsServed | node/singbox.py:489-577 | after any run of applies, failed checks, empty specs, engine deaths, queued restarts and agent restarts at rest, an apply that reaches its end leaves an engine serving its configuration up to user order |
| SingBoxRestart.StepKeepsInv | node/singbox.py:489-577 | a live engine runs the file on disk unless that file could not be served, kept by every step |
| SingBoxRestart.SkippingRefinesRestartingIff | node/singbox.py:489-577 | over every run with agent restarts between applies, the worker that skips restarts and the one that always restarts serve the same configuration at every point if and only if no spec without inbounds is applied while the first runs a kept engine that it did not start |
| SingBoxRestart.StepRelatedIff | node/singbox.py:489-577 | the same for one step: related workers stay related if and only if the step does not strand such an engine |
| SingBoxRestart.KeptOrphanOutlivesEmptySpec | node/singbox.py:555-774 | a run that strands one: after an agent restart the same configuration is applied again, then an empty one; the skipping worker goes on serving, the other has stopped |
| SingBoxRestart.RestartInsideApply | node/singbox.py:489-577 | if the agent restarts after the write, before or after the check, applying the same configuration again is served if and only if the old engine had died or already served it |
| SingBoxEngine.CoveredThroughoutIff | node/singbox.py:520-757 | over every interleaving, the running engine is free of revoked users or a restart is due in every state if and only if no due restart is lost |
| SingBoxEngine.StepCoversIff | node/singbox.py:520-757 | the same for each step: only a take of a spec with a queued restart, and a revocation with nothing to remove, lose one |
| SingBoxEngine.DrainedEngineIsClean | node/singbox.py:615-757 | after any run that loses none, once nothing is queued or at work the engine serves no revoked user |
| SingBoxEngine.RefreshSwallowsRestart | node/singbox.py:489-634 | a revocation followed by the panel's next spec drains the queues and keeps the old engine, which goes on serving what it served |
| UsageBaselines.CommittedNeverExceedsMoved | app/usage_baselines.py:53-156 | over every run of traffic, resets, polls, failed and successful bills, discarded jumps, lost baselines and restarts, bytes committed for a key never exceed bytes moved since its first baseline, with equality when no reset, discard or loss intervened |
| UsageBaselines.EveryOrdinaryByteIsCommitted | app/usage_baselines.py:85-156 | over every run in which the counter is not reset, its baseline not lost and each poll with a baseline finds at most its cap moved, or has no cap, the bytes committed are the bytes moved from the first baseline to the current one |
| UsageBaselines.PollDiscardsAboveTheCap | app/usage_baselines.py:115-128 | in every reachable state a poll that finds more than a positive cap moved reports nothing for the key, commits nothing and takes the reading as baseline |
| UsageBaselines.PollReportsWhatMoved | app/usage_baselines.py:85-156 | in every reachable state a poll that finds some bytes moved, within its cap or without one, reports exactly those and leaves the baseline; the bill that succeeds commits them and moves it |
| UsageBaselines.PeekMeters | app/usage_baselines.py:85-132 | what a peek makes of every reading, in bytes and baselines, and that it touches no other key |
| UsageBaselines.RunKeepsKeyInv | app/usage_baselines.py:53-156 | the per-key invariant linking cache, store, outstanding bill and true meter, along every run |
| UsageBaselines.DeltaNeverExceedsMovement | app/usage_baselines.py:108-113 | a delta never exceeds the bytes moved since the baseline, and equals them without a reset |
| UsageBaselines.PollListed | app/usage_baselines.py:85-132 | what a whole poll does to one listed key, whatever the other keys do |
| UsageBaselines.PollElsewhere | app/usage_baselines.py:85-132 | a poll of one group leaves the baselines of others alone |
| UsageBaselines.BillKeepsKeyInv | app/usage_baselines.py:141-145 | committing an outstanding bill adds its delta once and moves the baseline to the reading it was computed from |
| UsageBaselines.CumulativeByteTracker.constructor | app/usage_baselines.py:45-48 | the cache starts empty beside the given store |
| UsageBaselines.CumulativeByteTracker.Load | app/usage_baselines.py:53-70 | the cache wins over the store, and a value found in the store is cached |
| UsageBaselines.CumulativeByteTracker.PeekDeltas | app/usage_baselines.py:85-132 | the loop reports for each reading the bytes since its baseline, all the counter shows when it went back, and nothing above a cap, where the reading becomes the baseline at once; no other key is touched |
| UsageBaselines.CumulativeByteTracker.CommitPending | app/usage_baselines.py:141-145 | every pending baseline is saved, in whatever order the dictionary gives |
| Ledger.TransactionKeepsMatch | app/billing/__init__.py:69-103 | a transaction keeps every wallet equal to its ledger lines and adds exactly its own line and at most one positive commission |
| Ledger.CommissionKeepsMatch | app/billing/commission.py:7-42 | a commission adds at most one positive line and keeps the match |
| Ledger.TransactionMovesWallets | app/billing/__init__.py:69-103 | a transaction moves its own wallet by exactly its amount, the parent's by exactly the positive commission that is due, if one is, and no other |
| Ledger.DebitPaysParent | app/billing/commission.py:7-42 | a debit takes its amount from the debited wallet and gives the parent, if there is one, its own or else the default percentage of it, rounded down; no other wallet moves, and credits, paid invoices and commissions share nothing |
| Ledger.AffordableDebitKeepsSolvent | app/billing/__init__.py:69-103 | a debit the wallet can pay overdraws no one |
| Ledger.PayInvoiceKeeps | app/billing/__init__.py:132-161 | paying an invoice of any amount keeps wallets and prepaid traffic equal to their books, never overdraws, and writes no line unless it is paid |
| Ledger.GrantMeans | app/billing/traffic_packages.py:333-365 | a grant gives a reseller exactly its bytes at no price, and nothing to sudo or unknown admins |
| Ledger.PayInvoiceMeans | app/billing/__init__.py:132-161 | a pending invoice the wallet can pay is paid in full, once and without a commission; any other, paid or canceled ones included, leaves every wallet as it is |
| Ledger.PurchaseKeeps | app/billing/traffic_packages.py:245-330 | buying a package moves money and traffic together, commission included, and never overdraws |
| Ledger.PurchaseMeans | app/billing/traffic_packages.py:71-330 | a reseller gets an enabled package that holds something, at its own or the catalogue's price and volume, if and only if its wallet holds the price; then exactly the bytes are added and the price debited, and otherwise nothing happens |
| Ledger.WithTrafficKeeps | app/billing/traffic_packages.py:333-365 | credited traffic keeps prepaid equal to grants less cover |
| Ledger.GetOrCreateWallet | app/billing/__init__.py:59-66 | a missing wallet appears with balance zero and no balance changes |
| Ledger.AddTransaction | app/billing/__init__.py:69-103 | the mutually recursive posting and commission end in the specified books |
| Ledger.CreditParentCommission | app/billing/commission.py:7-42 | the credit is the percentage of the debit rounded down, to the parent alone, as one line; without a parent, a percentage or a whole unit nothing changes |
| Ledger.PayInvoice | app/billing/__init__.py:132-161 | each outcome and the whole state it leaves |
| Ledger.PurchasePackage | app/billing/traffic_packages.py:71-330 | each outcome, with per-reseller price and volume, and the whole state it leaves |
| Ledger.CreditTraffic | app/billing/traffic_packages.py:333-365 | refuses unknown and sudo admins and non-positive volumes, and changes nothing then |
| UsageBilling.SplitConserves | app/billing/usage_billing.py:186-210 | the ownership split neither loses nor invents a byte, gives the reseller's own nodes exactly their share of the traffic rounded down, and without traffic counts all bytes as shared |
| UsageBilling.CoverConserves | app/billing/usage_billing.py:158-176 | prepaid cover plus overflow is the whole split, overflow remains only when the prepaid traffic is exhausted, and shared bytes are covered first: while any is left, no own byte is covered |
| UsageBilling.ChargeBounds | app/billing/usage_billing.py:143-155 | rounding loses less than one unit on each side of the split and never gains |
| UsageBilling.RateBounds | app/billing/__init__.py:177-186 | the discounted rate is the rate less the percentage, rounded down; a discount counts as at least 0 and at most 100 |
| UsageBilling.BillTakesItsTerms | app/billing/usage_billing.py:143-410 | for every discount, ratio, prepaid traffic and rate: a bill debits the units that the row's own bytes, left after cover, cost at the discounted rate and its shared bytes at the full one, if the wallet holds them; if not, nothing is charged and the watermark stays |
| UsageBilling.OwnNodesCostLess | app/billing/usage_billing.py:143-210 | all traffic on own nodes costs the discounted rate, all on shared nodes the full one, rounded down |
| UsageBilling.CostIsInTheTerms | app/billing/usage_billing.py:143-210 | the cost of a bill is determined by the row, the ratio and the rate alone |
| UsageBilling.QuoteIsOk | app/billing/usage_billing.py:143-222 | bytes and cost of a whole bill: split, cover, overflow and cost fit together for every reseller row and ratio |
| UsageBilling.InsolvencyTestsAgree | app/billing/usage_billing.py:234-438 | in every state a reseller is in the unpaid sweep if and only if its bill would be held, and if and only if its summary says blocked; sweep and summary work out the same amount |
| UsageBilling.SettledIsNotBlocked | app/billing/usage_billing.py:320-410 | after any bill that was not held the reseller is not unpaid |
| UsageBilling.NewSettlementOk | app/billing/usage_billing.py:336-407 | a bill that moves the watermark charges, covers or waives each byte in one way only, and waives only bytes worth less than two units |
| UsageBilling.BillKeepsSettlementsOk | app/billing/usage_billing.py:320-410 | so does every bill of a history |
| UsageBilling.BillKeepsSlack | app/billing/usage_billing.py:320-410 | a bill takes each byte it moves over from the unbilled ones, for every reseller |
| UsageBilling.TrafficKeepsSlack | app/billing/usage_billing.py:213-222 | traffic and counter resets never let billed and waiting bytes exceed recorded ones |
| UsageBilling.BillKeepsPrepaid | app/billing/usage_billing.py:350-407 | prepaid traffic stays grants less cover and never negative |
| UsageBilling.BillKeepsWallets | app/billing/usage_billing.py:320-410 | a bill keeps wallets equal to the ledger and never overdraws |
| UsageBilling.ChargesAreFair | app/billing/usage_billing.py:143-155 | over all charges of a reseller the units never exceed the worth of the bytes and miss it by less than two a charge |
| UsageBilling.WorthAtFixedRate | app/billing/usage_billing.py:143-155 | at one rate without discount that worth is rate times bytes |
| UsageBilling.SweepStartsCheckpoints | app/billing/usage_billing.py:122-140 | the sweep starts a missing checkpoint of a billed reseller at its present usage and changes no other row |
| UsageBilling.SweepKeepsStanding | app/billing/usage_billing.py:122-140 | creating missing checkpoints and wallets on the way changes no balance and no one's standing |
| UsageBilling.SweepOne | app/billing/usage_billing.py:422-437 | a reseller reached in the middle of the sweep stands as before it, and only its own rows change |
| UsageBilling.AggregateUsage | app/billing/usage_billing.py:66-112 | every positive row is counted once, as owned or as shared |
| UsageBilling.OwnedBytesMean | app/billing/usage_billing.py:66-112 | all bytes are owned when every row is on a node of the reseller's tenant or of its own, and none when none is |
| UsageBilling.BillResellerUsage | app/billing/usage_billing.py:320-410 | each outcome and the whole state it leaves; what the bill takes is `BillTakesItsTerms` |
| UsageBilling.ResellersWithUnpaidUsage | app/billing/usage_billing.py:413-438 | the loop returns exactly the resellers that cannot pay, in any order, and leaves only new checkpoints and the new wallets of resellers that owe something |
| Quota.ClampUsageEntries | app/quota.py:610-627 | the loop returns the clamped entries and the reported users |
| Quota.TickAt | app/quota.py:97-102 | a tick adds to each user the clamp of that user's own traffic and reports it by its own entry alone |
| Quota.ClampingIsIndependentOfTicks | app/quota.py:97-627 | however traffic is cut into ticks, a limited user ends at the smaller of limit and start plus traffic and is reported exactly once, if at all |
| Quota.ReportAgreesIffLimitNotNegative | app/quota.py:610-627 | reports name only limited users if and only if the limit is absent or not negative |
| Quota.RechargeConserves | app/quota.py:45-87 | used plus overage is preserved, and a limited user comes back if and only if that sum is below the new limit or the package is unlimited |
| Quota.EditLimitConservesIff | app/db/crud.py:992-1025 | an operator's edit of the limit keeps the consumed bytes if and only if it does not cut a limit below the usage of a user without overage |
| Quota.EditedLimitDecides | app/db/crud.py:992-1025 | after an edit of the limit an account neither expired nor disabled is limited if and only if what it consumed reaches the new limit, and otherwise active or still on hold |
| Quota.EditedExpiryDecides | app/db/crud.py:1027-1041 | an edit of the expiry brings an expired account back or ends a running one, as the expiry lies ahead or not, and moves nothing else |
| Quota.ResetEmpties | app/db/crud.py:1118-1150 | a reset empties the counters and makes everyone active but expired and disabled accounts, and those on hold where a hold is kept |
| Quota.NextPlanLeaves | app/db/crud.py:1153-1195 | what is left after a next plan fires: the plan alone with the flag on, the plan and the old remainder with it off |
| Quota.ExtensionMeans | app/services/user_bulk.py:1221-1258 | more data raises the limit by exactly that much and brings a limited account back if and only if it then has room; more time brings back expired ones |
| Quota.LimitUserMeans | app/quota.py:105-140 | usage is cut to the limit, and exactly the active accounts that used it up become limited |
| Quota.TrafficIsCounted | app/jobs/record_usages.py:490-600 | traffic of an account in service counts up to its limit, anyone else's in full as overage |
| Quota.StatusEventsMean | app/db/crud.py:1415-1455 | whose status expiry, first use, bulk disabling and bulk activation move, and to what |
| Quota.ReviewAndImportMean | app/jobs/review_users.py:60-200 | the review of limited accounts cuts usage first and brings back exactly those with room and no overage; an import overwrites only what it has a value for |
| Quota.RenewalCarriesTheRemainder | app/portal/__init__.py:36-108 | a renewal starts an active, empty period in which exactly the plan and the unused remainder of a limited account are left, and keeps owner and suspension mark |
| Quota.UpdateUser | app/db/crud.py:978-1103 | the edit, worked through the row step by step, is the specified one; an explicit limited status is undone only with a new limit |
| Quota.ApplyPlanToUser | app/portal/__init__.py:57-108 | the renewal limit is worked out before the counters are reset |
| Quota.EnforcementSettles | app/quota.py:164-225 | afterwards no active user belongs to a blocked reseller and no capped one to an unblocked one, all others are untouched, and a second pass changes nothing |
| Quota.CappedMeansDisabledIff | app/db/crud.py:978-1455 | each of sixteen kinds of event keeps a suspended user disabled if and only if it is not an explicit other status, a renewal, a next plan that fires or a bulk activation |
| Quota.RenewalLiftsSuspension | app/portal/__init__.py:94-107 | the input at which it shows: a suspended user whose plan is renewed is active and still marked |
| Quota.SuspensionHolds | app/quota.py:192-218 | while the user keeps its owner and that reseller stays blocked, no event removes the suspension mark, and without a lifting event the user stays disabled |
| Quota.LiftedUserIsSuspendedAgain | app/quota.py:192-203 | whatever lifted a suspension under the same owner, the next pass leaves the user marked and not active, and disables one that had become active |
| Quota.BlockThenUnblock | app/quota.py:192-218 | a block, then any events but a change of owner, then an unblock return an active user to active, or to limited exactly when the quota is used up |
| Quota.ResellersOverTrafficCap | app/quota.py:143-161 | over are exactly the resellers with a cap whose usage has reached it, under the others with a cap |
| Quota.SuspendUsers | app/quota.py:192-203 | exactly the active users of blocked resellers are suspended and returned |
| Quota.RestoreUsers | app/quota.py:204-218 | exactly the capped users of unblocked resellers are released, limited when exhausted |
| Quota.EnforceResellerTrafficCaps | app/quota.py:164-225 | in the fields of the rows: active users of a reseller that is unpaid or whose usage has reached its cap are disabled and marked, and marked users of any other are released, limited when their quota is used up |
| Payments.CompleteKeepsMatch | app/billing/payments.py:664-857 | completing a payment keeps exactly one credit per completed top-up and touches no final intent, wherever its follow-up stops or its wholesale charge fails |
| Payments.RenewalComesBeforeItsCharge | app/billing/payments.py:701-725 | the account has the new period either way, and the payment is completed if and only if the wholesale charge goes through |
| Payments.SalesAreChecked | app/billing/reseller_tariffs.py:604-619 | every sale of a plan, by an operator, in the portal or wholesale, checks the wallet before it debits it |
| Payments.ExpiryKeepsPaid | app/billing/payments.py:60-94 | the sweep loses no intent, leaves final ones alone, and changes an intent to expired or not at all |
| Payments.ExpiresExactly | app/billing/payments.py:60-94 | an intent expires if and only if it is a pending portal payment, its time has come, and fewer than the limit wait before it |
| Payments.TopupIsOpenedIff | app/billing/payments.py:157-303 | a top-up is opened if and only if its amount is between a million and the ceiling, pending or failed as its provider starts it |
| Payments.PortalPaymentIsOpenedIff | app/billing/payments.py:306-422 | a portal payment is opened if and only if the plan has a price, for the renewal or purchase it was asked for, pending or failed as its provider starts it |
| Payments.ReviewMeans | app/billing/payments.py:461-594 | approval, rejection and a receipt act exactly on intents still open, for those who may review, and approval and receipts on card payments only; nothing else is ever completed |
| Payments.SaleMeans | app/routers/user.py:1147-1192 | a sale debits exactly its price and renews, if the wallet holds it, and otherwise does neither |
| Payments.PortalRenewalMeans | app/routers/portal.py:342-405 | a renewal without a payment is refused exactly when payment methods exist for a plan with a price, a tariff is missing, or the wallet lacks the tariff or, without one, the price; otherwise it debits that and renews |
| Payments.PurchaseOpensAnAccount | app/billing/payments.py:769-807 | a completed purchase opens one active, empty account of the payer's reseller with the plan's volume, names it in the payment, and changes no other |
| Payments.CreditIsOneLine | app/billing/payments.py:664-675 | the credit of a top-up is a single line of its amount, without commission |
| Payments.OrdinaryStepKeepsMatch | app/billing/payments.py:255-594 | any operation that writes no payment line and pays no top-up keeps the match |
| Payments.CreateTopupPayment | app/billing/payments.py:255-303 | amounts outside the bounds leave nothing; a provider that fails leaves a failed intent |
| Payments.SubmitCardPayment | app/billing/payments.py:461-498 | accepted exactly for open card intents |
| Payments.ExpireStalePortalPayments | app/billing/payments.py:60-94 | the loop over at most a thousand rows computes the specified sweep |
| Payments.ApplyTopup | app/billing/payments.py:664-698 | credit, bill and enforcement in sequence, with billing on or off, as far as the follow-up gets |
| Payments.ChargePortalPlanTariff | app/billing/reseller_tariffs.py:977-1008 | the charge fails exactly when a tariff is due and missing or the wallet is too low, and then posts nothing |
| Payments.ApplyPortal | app/billing/payments.py:701-807 | a renewal renews the target and a purchase creates an account of the payer's reseller, before the charge that decides completion |
| Payments.SellPlan | app/routers/user.py:1147-1192 | a sale that the wallet cannot pay changes no user; any other debits it and renews |
| Payments.CompletePayment | app/billing/payments.py:810-857 | an intent that is not open or not verified changes nothing; any other ends as its kind says, users included |
| Payments.ApprovePayment | app/billing/payments.py:549-559 | approval completes open card intents only |
| PanelRuns.BooksAlwaysMatch | app/billing/__init__.py:69-161 | in every run of all operations mixed, each wallet is the sum of its ledger lines, prepaid traffic is grants less cover and never negative, and every settlement accounts for each byte once |
| PanelRuns.PaymentsAlwaysMatch | app/billing/payments.py:60-857 | in every run a top-up has exactly one ledger credit of its amount if and only if it is completed, total credits equal completed top-ups, and final intents never change |
| PanelRuns.IntentOpPaysNothing | app/billing/payments.py:255-594 | creating, submitting, rejecting and expiring payments writes no line, pays nothing and leaves final intents alone |
| PanelRuns.SolventThroughoutIff | app/billing/__init__.py:69-161 | no wallet is negative in any state of a run if and only if no operator's adjustment in it goes below the balance: usage bills, package and plan sales, portal renewals and purchases, wholesale charges, invoices of any amount and top-ups never overdraw |
| PanelRuns.StepKeepsSolventIff | app/billing/usage_billing.py:385-407 | the same for one operation |
| PanelRuns.UncheckedDebitOverdraws | app/routers/billing.py:182-228 | an adjustment moves the wallet by exactly its amount, so one below the balance leaves it negative |
| PanelRuns.CarefulRunsNeverOverdraw | app/billing/usage_billing.py:385-407 | a run whose adjustments stay within the balance ends with no negative wallet |
| TrafficRuns.NoByteBilledTwice | app/billing/usage_billing.py:213-410 | in every run, with counter resets anywhere, bytes billed plus bytes waiting never exceed bytes recorded plus bytes waiting at the start |
| TrafficRuns.EveryByteBilledOnce | app/billing/usage_billing.py:213-410 | without a reset that is an equality, and the bytes settled are exactly the advance of the checkpoint |
| TrafficRuns.BilledIntervalsNeverOverlap | app/billing/usage_billing.py:213-410 | without a reset the byte intervals of successive settlements follow one another without overlap |
| TrafficRuns.ChargesAreFairInEveryRun | app/billing/usage_billing.py:143-155 | in every run at one rate without discount, units times a gigabyte are at most rate times bytes charged, and less than two gigabytes a charge below it |
| TrafficRuns.UnpaidAfterBillIff | app/billing/usage_billing.py:320-438 | a bill never changes whether the reseller is unpaid |
| TrafficRuns.TopupRestoresServiceIff | app/billing/payments.py:664-698 | completing a top-up releases the reseller's suspended users at once, active or limited by their own quota, if and only if it is below its traffic cap and, with billing on, the topped-up wallet can pay what it owes |
| UserRuns.StepActsByEvent | app/quota.py:164-225 | every operation of the panel changes each user by one event or not at all, loses none, and creates only users that are not suspended |
| UserRuns.ActivationMeans | app/db/crud.py:1432-1455 | a bulk activation brings back exactly the disabled users of the admin it is for, or of everyone |
| UserRuns.RunActsByEvents | app/quota.py:164-225 | a whole run does to a user what its events on that user do |
| UserRuns.SuspendedStayDisabledIff | app/db/crud.py:978-1455 | suspended users are disabled in every state of a run if and only if no operation of it lifts a suspension: by hand, by a renewal or plan sale, by a next plan or in bulk |
| UserRuns.NextPassSuspendsAgain | app/quota.py:164-218 | over every run in which the user keeps its owner and that reseller stays blocked at each pass, a suspended user keeps its mark, and the next pass disables it again if anything made it active |
| UserRuns.FirstFreePassReleases | app/quota.py:204-218 | after any such run, with the same owner, the first pass that finds the reseller free releases the user, limited exactly when its quota is used up |
| UserRuns.RenewalUnderBlock | app/billing/payments.py:701-747 | a renewal paid during a block makes the customer active with the new period, charge or no charge, and the next pass disables it again and leaves it the period |
| ResellerRuns.PassDecidesByTheRow | app/quota.py:143-218 | one pass, in the fields of the rows and for every user: held if and only if the reseller has used its cap up or, with billing on, owes more than its wallet |
| ResellerRuns.ReachingTheCapSuspends | app/quota.py:143-203 | traffic that brings a reseller to its cap suspends its active users at the next pass |
| ResellerRuns.RaisingTheCapReleases | app/db/crud.py:1762-1804 | raising the cap above the usage, or clearing it, releases the marked users of a reseller that can pay at the next pass |
| ResellerRuns.UsedUpCapHolds | app/quota.py:143-203 | over every run after the cap is used up, until the counter is reset or the cap edited, a pass leaves none of the reseller's users active |
| ResellerRuns.StepIsPosted | app/billing/commission.py:7-42 | every operation but traffic, resets and edits leaves all terms and usage, follows each sale worth sharing by its commission, and credits a commission only after the debit that earned it, at the percentage in force |
| ResellerRuns.CommissionsNeverExceedDebits | app/billing/commission.py:7-42 | over every run in which no percentage exceeds a hundred, commissions credited are at most the debits that earned them |
| BillingGuard.DisconnectsArePaidFor | app/billing_guard.py:235-295 | in every run, cycles times disconnects plus the counter is at most the blind ticks, the counter stays below the threshold, and any two disconnects or reclaims are a minute or ten seconds apart for each step between them |
| BillingGuard.FiresExactlyWhenBlindnessOutweighs | app/billing_guard.py:246-295 | the guard fires if and only if a blind tick ends a stretch, since the last clearing, in which blind ticks outnumber the others by the threshold |
| BillingGuard.LastingOutageDisconnects | app/billing_guard.py:275-295 | an outage of as many ticks as the counter lacks ends in exactly one disconnect, at its last tick |
| BillingGuard.FiresIff | app/billing_guard.py:235-295 | when exactly a tick disconnects, in what it observes and with the cooldowns of 60, 15 and 10 seconds |
| BillingGuard.FineRunsNeverDisconnect | app/billing_guard.py:261-273 | a run whose ticks all find the API and a core up never disconnects, and counts every tick against earlier blindness |
| BillingGuard.StepKeepsInv | app/billing_guard.py:235-295 | the leaky counter is the largest sum of a suffix of the signed ticks, kept with the bounds above by every tick |
| BillingGuard.RecoveryAgreesIff | app/billing_guard.py:189-210 | the guard's recovery and the quota rule release the same users except where overage or limit is negative |
| BillingGuard.RecoverFalseBillingLimits | app/billing_guard.py:176-228 | exactly the falsely limited users become active, and they are counted |
| BillingGuard.BillingGuardState.constructor | app/billing_guard.py:30-39 | counters start at zero |
| BillingGuard.BillingGuardState.AttemptCoreReclaim | app/billing_guard.py:119-141 | an attempt is made only when the cooldown is over, and then recorded whether or not it succeeds |
| BillingGuard.BillingGuardState.CheckBillingIntegrity | app/billing_guard.py:235-295 | the nine exits of a tick give the specified counters, and users change only through recovery after blind ticks |
| ResellerTariffs.SnapGoesToTheNearest | app/billing/reseller_tariffs.py:440-460 | a length stays when it is on sale or nothing within a day is, and otherwise goes to the neighbouring day, the shorter first |
| ResellerTariffs.MatchIsBest | app/billing/reseller_tariffs.py:516-554 | the match is the eligible row of nearest, then shorter duration, then lower price, then lower id, and there is none if and only if no row is eligible |
| ResellerTariffs.MatchIgnoresOrder | app/billing/reseller_tariffs.py:516-554 | with distinct ids the match depends only on which rows there are |
| ResellerTariffs.MergePart | app/billing/reseller_tariffs.py:319-336 | one part tightens each lock, in any order of its entries |
| ResellerTariffs.MergeLimitLocks | app/billing/reseller_tariffs.py:319-336 | each lock is the smallest positive value given for it, and absent if and only if none is given |
| ResellerTariffs.ChargeRaisesTheMark | app/billing/reseller_tariffs.py:812-861 | at a fixed volume a charge raises the charged expiry by more than an hour and anything else leaves the mark alone |
| ResellerTariffs.ChargesAreBounded | app/billing/reseller_tariffs.py:812-939 | over every run of edits and outside changes of the expiry, the charged expiry rises by more than an hour for every charge |
| ResellerTariffs.EditedRow | app/billing/reseller_tariffs.py:879-939 | a refused or unaffordable edit changes nothing; any other sets each given field, zero meaning none, and leaves a null or omitted one as it is |
| ResellerTariffs.ChargeIsAtTheListedPrice | app/billing/reseller_tariffs.py:172-184 | an edit is charged an enabled tariff for the volume asked for, at the reseller's own price or else the catalogue's, and never more than the wallet holds |
| ResellerTariffs.PaidTariffIsChargedOnlyForTime | app/billing/reseller_tariffs.py:812-854 | the tariff an account paid for is charged again only for an expiry more than an hour beyond the paid one |
| ResellerTariffs.TimeFromNowComesFirst | app/billing/reseller_tariffs.py:692-733 | a tariff for the days from now to the new expiry is taken before one for the days added |
| ResellerTariffs.LateRenewalIsCharged | app/billing/reseller_tariffs.py:812-939 | an account that has run out is charged for an expiry beyond the paid one, however short, when a tariff matches and the wallet holds its price |
| ResellerTariffs.OtherVolumeIsCharged | app/billing/reseller_tariffs.py:812-939 | another volume at the same expiry is charged when a tariff for it is found, not yet paid for and affordable |
| ResellerTariffs.CandidatesAre | app/billing/reseller_tariffs.py:692-709 | the lengths an edit may stand for are the nearest whole days, the even of two, from now to the new expiry and, for a running period pushed out by more than an hour, of the time added |
| ResellerTariffs.MatchedIsNotRefused | app/billing/reseller_tariffs.py:736-809 | an edit is turned away only with something on sale, and only if nothing matches or it trades a timed account for an open-ended unlimited one |
| ResellerTariffs.OpenEndedIsRefused | app/billing/reseller_tariffs.py:736-809 | that trade is turned away while timed unlimited tariffs are on sale |
| ResellerTariffs.UnlistedVolumeIsRefused | app/billing/reseller_tariffs.py:632-809 | another volume that matches nothing is turned away if and only if some volume is on sale |
| ResellerTariffs.ResubmissionIsFree | app/billing/reseller_tariffs.py:812-939 | submitting a charged edit again at any later time, after any events that keep the volume and under any catalogue, never charges |
| ResellerTariffs.ImmediateResubmissionIsFreeIff | app/billing/reseller_tariffs.py:812-939 | submitting it again at once never charges if and only if it settles the account's volume or matches no tariff |
| ResellerTariffs.RivalCharges | app/billing/reseller_tariffs.py:812-854 | the concrete catalogue under which an unsettled request is charged again |
| ResellerTariffs.CostBeyondPaidIff | app/billing/reseller_tariffs.py:692-939 | for every edit that keeps the volume and goes beyond the paid expiry, the exact conditions under which it is free, charged or refused, for accounts of any volume |
| ResellerTariffs.FirstHitIff | app/billing/reseller_tariffs.py:712-723 | a tariff is found for one of the candidate lengths if and only if some row is eligible for one of them |
| ResellerTariffs.ShortExtensionIsFree | app/billing/reseller_tariffs.py:692-709 | half a day or less on an account that has run out is free whatever is on sale |
| ResellerTariffs.HourMoreIsFree | app/billing/reseller_tariffs.py:829-854 | an hour more on a running account is free although it matches a tariff |
| ResellerTariffs.ShortStepsCostNothing | app/billing/reseller_tariffs.py:692-939 | any number of half-day extensions, one after another, is free under every catalogue and wallet: the expiry grows without bound and the mark stays |
| ResellerTariffs.HourlyStepsCostNothing | app/billing/reseller_tariffs.py:812-939 | the same an hour every hour, while the remaining time is a length on sale |
| ResellerTariffs.AccountRow.constructor | app/billing/reseller_tariffs.py:857-861 | a new row carries no mark |
| ResellerTariffs.AccountRow.UpdateUser | app/db/crud.py:992-1023 | a null field changes nothing although the charge reads it as no limit; zero clears the field |
| ResellerTariffs.AccountRow.Modify | app/routers/user.py:851-919 | decide, update, mark, with nothing changed by a refused edit |
| RoutingRules.EntriesMeanSuffixes | app/egress_guard/__init__.py:70-80 | both guards' entry lists, with or without removing repetitions, match exactly the hosts under a listed domain |
| RoutingRules.ChunksMatchTheWhole | app/egress_guard/__init__.py:109-121 | rules cut into chunks of any size match exactly when one rule with the whole list would |
| RoutingRules.ChunksHaveTheShape | app/family_guard/server_routing.py:77-90 | every chunk is non-empty, within the size, and differs from the others only in its entries |
| RoutingRules.BuildDistinctEntries | app/egress_guard/__init__.py:70-80 | the loop with its set of seen domains computes the entries of each domain once |
| RoutingRules.BuildAllEntries | app/family_guard/server_routing.py:33-41 | the loop computes the entries of every non-blank domain |
| RoutingRules.BuildChunkRules | app/egress_guard/__init__.py:109-121 | the loop over slices computes the chunks |
| RoutingGuards.EgressRulesBlockExactly | app/egress_guard/__init__.py:83-121 | the egress rules match a flow if and only if it is BitTorrent, falls under a listed geosite or goes to a host under a listed domain |
| RoutingRules.UnderAnyMeans | app/egress_guard/__init__.py:70-80 | a host is under a list of domains if and only if it is, or is a subdomain of, an entry trimmed of blanks, without its leading dots, in lower case and not empty then |
| RoutingGuards.KeptDomainsMean | app/family_guard/server_routing.py:60-92 | with geosite packs only the first 24 domains of a user's controls count, and without them all |
| RoutingGuards.FamilyRulesBlockExactly | app/family_guard/server_routing.py:44-106 | the family rules match a flow if and only if the controls of its own user block it, by geosite, kept domain or address range |
| RoutingGuards.EmailsAreDistinct | app/family_guard/server_routing.py:28-30 | two users never share an address, whatever their names contain |
| RoutingGuards.ControlsArePersonal | app/family_guard/server_routing.py:44-106 | no one's controls block anyone else |
| RoutingGuards.TableIsGuardsThenOperator | app/egress_guard/__init__.py:172-205 | after any passes in any order the table is the current guard rules followed by the operator's rules in their own order |
| RoutingGuards.GuardsAreCurrent | app/family_guard/server_routing.py:109-146 | the guards' part is the two newest rule lists and nothing older |
| RoutingGuards.RebuildsPreserveMeaning | app/egress_guard/__init__.py:124-205 | under first-match evaluation a flow matched by a current guard rule is blocked and every other flow gets the operator's decision, and rules never accumulate |
| RoutingGuards.GuardsBlockExactly | app/family_guard/server_routing.py:119-146 | after any history that ends with a pass of each guard, in either order, exactly the flows the guards are to block are blocked by them |
| RoutingGuards.GuardRulesDangleIff | app/egress_guard/__init__.py:172-205 | after any passes, some guard rule names a missing outbound if and only if there are guard rules and the outbounds are missing, or none had the exact name at first and either one is spelled in another case or the egress guard was never on |
| RoutingGuards.FamilyRulesDangleWithEgressOff | app/family_guard/server_routing.py:119-146 | the input at which it shows: the egress guard off, a user with controls and no such outbound |
| RoutingGuards.BlackholeIsExact | app/egress_guard/__init__.py:188-199 | an enabled pass provides the outbound, a blackhole named BLOCK, unless the only one of that name is spelled otherwise, keeps the default outbound first, and adds it once |
| RoutingGuards.SniffingSettles | app/egress_guard/__init__.py:134-169 | sniffing is on for every inbound but WireGuard, which stays as it is, with only accepted overrides, the operator's choice of route-only or the three defaults, and repeating it changes nothing |
| RoutingGuards.BuildEgressGuardRules | app/egress_guard/__init__.py:83-121 | the code's list is the specified one |
| RoutingGuards.BuildTagEntries | app/family_guard/server_routing.py:62-67 | the loop skips blanks and prefixes only tags that lack the prefix |
| RoutingGuards.BuildRulesOf | app/family_guard/server_routing.py:50-105 | one user's rules, with the short supplement of domains beside geosite packs |
| RoutingGuards.BuildFamilyGuardRules | app/family_guard/server_routing.py:44-106 | the nested loops give the specified list |
| RoutingGuards.XrayConfig.EnsureInboundSniffing | app/egress_guard/__init__.py:134-169 | every inbound is treated, and only inbounds change |
| RoutingGuards.XrayConfig.ApplyEgressGuardRouting | app/egress_guard/__init__.py:172-205 | one pass on the config; switched off it only removes its own rules; the domain strategy never changes |
| RoutingGuards.XrayConfig.ApplyFamilyGuardServerRouting | app/family_guard/server_routing.py:119-146 | one pass on the config that touches neither sniffing nor domain strategy |
| PeerSync.InterruptedSyncConverges | node/wireguard.py:291-367 | however often a sync is interrupted, between batches or after any command inside one, and from whatever earlier batch it resumes, once the last batch has gone out whole the peers are those of one uninterrupted sync |
| PeerSync.ReplayedSuffixConverges | node/wireguard.py:291-367 | batches up to any point followed by a replay from any earlier one to the end equal the batches once |
| PeerSync.Absorbed | node/wireguard.py:317-345 | a command makes no difference before commands that repeat it, although addresses move between peers and preshared keys are retained |
| PeerSync.AlikeKept | node/wireguard.py:573-582 | two interfaces that one command would make equal stay so under any other command |
| PeerSync.PutSetsAddresses | node/wireguard.py:573-582 | after a row its peer has exactly the row's addresses, taken from whoever had them, and keeps a preshared key the row does not give |
| PeerSync.BatchLeaves | node/wireguard.py:291-367 | what a batch leaves of a peer: removed ones are gone unless a row puts them back, unnamed ones are as before, an inactive row takes its peer off the interface and an active one puts it there, unless a later row says otherwise |
| PeerSync.InactiveRowIsGone | node/wireguard.py:291-367 | after the rows the peer of an inactive row is gone and owns no address, unless a later row adds it |
| PeerSync.ActiveRowIsThere | node/wireguard.py:573-582 | the peer of an active row with accepted addresses is there, with the preshared key the last such row gave |
| PeerSync.WireGuardManager.constructor | node/wireguard.py:272-289 | no watermark at the start |
| PeerSync.WireGuardManager.RunRemoves | node/wireguard.py:317-321 | the first loop: blank keys are skipped, the rest removed and counted |
| PeerSync.WireGuardManager.RunRows | node/wireguard.py:322-345 | the second loop: inactive rows remove, rows without addresses are skipped, and a row counts when its peer is there afterwards |
| PeerSync.WireGuardManager.ApplyBatch | node/wireguard.py:291-367 | one batch: the whole new interface, count and watermark, or failure without effect when the interface is missing |
| UsageUpsert.CoalescedKeeps | app/db/usage_upsert.py:25-43 | merging leaves each key once and keeps every key's total |
| UsageUpsert.MergingPreservesSums | app/db/usage_upsert.py:25-62 | adding the merged rows to any table is adding the rows one by one |
| UsageUpsert.ChunkDistinct | app/db/usage_upsert.py:20-54 | no chunk of the merged rows holds a key twice |
| UsageUpsert.CoalesceRows | app/db/usage_upsert.py:25-43 | the loop with its dictionary computes the merged rows in order of first appearance |
| UsageUpsert.UsageTable.Execute | app/db/usage_upsert.py:53-59 | one statement of at most four hundred rows with distinct keys adds them all |
| UsageUpsert.UsageTable.PgUpsert | app/db/usage_upsert.py:46-62 | no chunk is ever rejected, and the table ends as if every row had been added on its own |

## Left out

- Leader election around `stop`, which deletes the key but leaves the flag set, and the forced roles that skip the election (app/ha.py:92-124); before `start` the flag is set by default, so leadership is stated for started instances.
- When an engine that has lost its restart is next restarted: that depends on the specs that follow.
- SingBoxConfig.FingerprintIffSame: speaks of the digest's input; collisions of the hash are not modelled, and users are ordered by field where the code compares serialised text, which gives the same equivalence.
- Torn or failing writes of the sing-box file, entries that are not objects, closing live connections, self-signed certificates and speed limits.
- UsageBaselines.CommittedNeverExceedsMoved: assumes store writes succeed and one outstanding bill per group; a silently failed write or an older bill committed after a newer one can move a baseline back.
- Quota.ClampingIsIndependentOfTicks: assumes distinct users within a tick, because a repeated user is clamped twice against the same base.
- Quota.EnforcementSettles: speaks of the session; a pass that only turns capped users to limited is not committed by itself (app/quota.py:220).
- Concurrent completions of one payment: an operation here is one step. Portal renewals are not exactly-once, as `RenewalComesBeforeItsCharge` shows.
- Deleting users, creating them outside the portal, a bulk import into new accounts, the accounts' expiry times beyond whether they lie ahead, and previews of charges in the chat bot.
- Whether a plan has a wholesale tariff and at what price is a parameter of its sale.
- Edits that change an account's volume and its expiry together: their cost is modelled, and stated only for resubmission.
- ResellerTariffs.ResubmissionIsFree: the expiry of the edit is given rather than left out, since an omitted expiry asks for whatever the row has then.
- One clock reading per edit of an account where the code takes several; charging at creation and by the portal; the selection of locks from plans.
- RoutingRules.EntriesMeanSuffixes: letters are folded for ASCII only, and rules that are not objects are not modelled; which flows fall under a geosite, address range or expression is a parameter of the flow.
- Which services, categories and pauses put targets into a user's family controls (app/family_guard/apply.py), and the fixed domain list of the egress guard, which is a parameter.
- PeerSync.InterruptedSyncConverges: `wg` accepts or rejects a command by its arguments alone; endpoints, handshakes and traffic counters are not modelled, and the watermark's hash is the set of keys it is computed from.
- UsageUpsert.UsageTable.PgUpsert: rows whose traffic is missing, and databases other than PostgreSQL.
- Database transactions, concurrent sessions and rollback: a session's operations are sequential.
- Payment gateways, messaging, tunnels, firewall and process control, HTTP routing, the command line, dashboards, backup and restore, presence tracking, feature flags, roles, API keys and rate limiting.

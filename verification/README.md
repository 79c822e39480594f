# A verified model of the xray-agent reconciler

The agent keeps a remote core (Xray) in agreement with a desired state that a control panel serves. The core
holds users and routing rules in memory only; it changes one call at a time, any call may fail before or after
taking effect, and the core may restart between any two calls. The agent remembers the last response it applied,
computes a difference against that memory (never against the core), and applies the difference call by call. This
project models that loop, its command-driven resets and its usage accounting, and proves what they guarantee over
whole runs, and exactly where the guarantees end.

## How the model is built

- `Model`, `Routes`: clients, rules, last-write-wins maps, and the rule normaliser with its two loops.
- `Runtime`: the core. Users are a map keyed by inbound tag and address, rules are a sequence to which additions
  append. An environment supplies, for every call, whether a restart lands just before it and what becomes of the
  call: refused (no effect, error), unanswered (effect, error), or answered. An answered removal of something
  absent may, as the core chooses, be reported as "not found". The contents of a freshly started core are
  arbitrary, so statements about an emptied core are a special case.
- `Diff`, `Apply`, `Manager`: the two differences and the class that applies them. Each method is proved equal to
  a function of the old state of the core; Go's map iteration order appears as a ghost out-parameter, and no result
  depends on it beyond that.
- `Batch`, `Drift`, `Reconciler`, `Runs`: closed forms of a whole synchronisation, the set of users and rules on
  which agent and core disagree (the drift), the fast path, and theorems over all runs.
- `Limits`, `Progress`, `Resets`: what cannot be repaired, when exactly an attempt succeeds, and what a reset leaves
  behind, also when the core restarts in the middle of it.
- `Store`, `Agent`: the classes holding the agent's memory and its loop bodies, proved against `Reconciler`,
  `Commands`, `Meter` and `ResetRead`.
- `Commands`, `Acknowledgements`: the command loop and the bounded retry after a core restart, and what the log of a
  command and its acknowledgement tell.
- `Guarantees`: the laws about users and rules spelled out in the panel's fields and the configured inbounds.
- `ResetRead`: reading counters, query by query, while traffic goes on and the core may restart between any two
  queries; conservation of bytes when every read resets.
- `Usage`, `Meter`, `MeterLimits`: counters turned into deltas, whole runs of polling, and the exact conditions under
  which the panel is told what was carried. Polls read their counters one after another, as in `ResetRead`; the
  model is parametric in how the core files its counters, by exact address or otherwise.
- `Reporting`: the reports themselves, and why the panel's sums are what those models say was delivered.
- `OnlineNames`, `Checksum`, `Text`: two text formats with exact characterisations.
- `Witnesses`: families of inputs on which a guarantee fails.

The two hypotheses that recur: `DistinctEmails`, that a response repeats no address (rules need no such thing, the
normaliser supplies it), and `Quiet`, that no restart lands between the two states compared. Where a law fails
without distinct addresses the exact law is proved without the hypothesis: the shadowed keys of
`Runs.SuccessHeals`. What restarts do is stated exactly too: `Runs.SyncFrame`, `Runs.RunCovered` and
`Resets.ResetServesIff` have no such hypothesis.

In two places the repository's README and its code differ; the model follows the code. Its README asks the
panel to send rules again after a restart (README.md:183), but sending the same response again takes the fast path
and touches nothing (`Limits.FailedResetsStick`), and neither does a new version of the same lists
(`Limits.NewVersionsStick`). It says counters are optionally reset after each push
(README.md:52), but they are reset by the read, before the push, so a failed push loses what was read
(`ResetRead.FailedPushLoses`; `ResetRead.DroppedExactly` says exactly when a run loses anything). Without resets the
snapshot too moves before the push, so there a failed push loses its deltas as well (`MeterLimits.UndeliveredIff`).

## Model

| member | source | states |
|---|---|---|
| `Routes.Normalize` | internal/model/routes.go:21-26 | the surviving rules have pairwise distinct tags, the same set of tags as the input, and all come from the input |
| `Routes.NormalizeKeepsMeaning` | internal/model/routes.go:5-26 | normalising leaves the last-write-wins map of a list unchanged |
| `Routes.NormalizeIsSubsequence` | internal/model/routes.go:21-26 | the surviving rules keep their order: they are a subsequence of the input |
| `Routes.NormalizeFixpoints` | internal/model/routes.go:7-26 | a list is its own normal form if and only if no tag repeats; normalising is idempotent |
| `Routes.NormalizeRouteRules` | internal/model/routes.go:7-39 | the two loops compute the normal form, and return strictly sorted exactly the tags that occur at two positions |
| `Routes.IndexTags` | internal/model/routes.go:12-19 | the first loop records for every tag the position of its last rule, and collects exactly the repeated tags |
| `Routes.SortTags` | internal/model/routes.go:32-36 | the collected tags come out strictly increasing, none lost and none added |
| `Routes.LessIff` | internal/model/routes.go:32-36 | the order used: the first character in which two tags differ decides, and a proper prefix comes first |
| `Diff.DiffClients` | internal/xray/manager.go:243-259 | additions are the listed entries absent from or different in the current map, in list order; removals are the current entries that differ from the last-write-wins map, each once, in some order |
| `Diff.StaleClients` | internal/xray/manager.go:244-252 | the removal loop over the map, for every iteration order |
| `Diff.MissingClients` | internal/xray/manager.go:253-257 | the addition loop over the list |
| `Diff.DiffRoutes` | internal/xray/manager.go:265-283 | the same for rules, against the normalised list |
| `Diff.StaleRoutes` | internal/xray/manager.go:268-276 | the removal loop for rules, for every iteration order |
| `Diff.MissingRoutes` | internal/xray/manager.go:277-281 | the addition loop for rules |
| `Diff.ClientAddsAre` | internal/xray/manager.go:253-257 | an entry is added if and only if it is listed and needs adding; repeated entries are not merged |
| `Drift.ClientDiffLaw` | internal/xray/manager.go:243-259 | current minus removals plus additions has exactly the listed addresses, and equals the last-write-wins map up to the client comparison if and only if no added client is overridden by a listed one that needs no adding |
| `Drift.ClientDiffSettles` | internal/xray/manager.go:243-259 | without repeated addresses that condition always holds, and differencing the result (current minus removals plus additions), or the panel's own map, again finds nothing |
| `Drift.RouteDiffLaw` | internal/xray/manager.go:265-283 | for rules, current minus removals plus additions equals the last-write-wins map of every list the panel can send |
| `Drift.RouteDiffSettles` | internal/xray/manager.go:265-283 | differencing the rules again finds nothing, for every list |
| `Diff.IndexByEmail` | internal/state/store.go:49-52 | the loop fills the last-write-wins map of addresses |
| `Diff.IndexByTag` | internal/state/store.go:53-56 | the loop fills the last-write-wins map of tags |
| `Runtime.Core.Next` | internal/agent/command_loop.go:280-284 | a restart may land before any call, and resets the core to its boot contents |
| `Runtime.Core.RemoveUser` | internal/xray/manager.go:86-94 | the removal call: effect, reply and the four ways it can come out |
| `Runtime.Core.AddUser` | internal/xray/manager.go:108-117 | the addition call replaces the account under its key, even if its answer is lost |
| `Runtime.Core.RemoveRule` | internal/xray/manager.go:152-157 | the removal call drops every rule with the tag and keeps the order of the others |
| `Runtime.Core.AddRule` | internal/xray/manager.go:177-185 | the addition call appends, whatever rules are there already |
| `Manager.Manager.RemoveUser` | internal/xray/manager.go:81-95 | no call without a configured inbound; otherwise one call under inbound tag and address, its error passed on |
| `Manager.Manager.AddUser` | internal/xray/manager.go:97-118 | removal first, its error ignored; then the local checks in the source's order; then the addition |
| `Guarantees.RemoveUserLaw` | internal/xray/manager.go:81-95 | a removal that succeeds takes exactly the user of that address out of the inbound configured for the client's protocol, vless, vmess or trojan; for any other protocol, or without an inbound, there is no call |
| `Guarantees.AddUserLaw` | internal/xray/manager.go:97-118 | an addition that succeeds stores exactly, under the address and the inbound of its protocol, an account with the client's id (vless, vmess) or password (trojan); for any other protocol, or without an inbound, it fails before the first call |
| `Guarantees.AddUserSucceedsIff` | internal/xray/manager.go:213-240 | a core that answers every call accepts a client if and only if its protocol is one of the three and has an inbound |
| `Manager.Manager.RemoveRoute` | internal/xray/manager.go:148-158 | no call without a tag; otherwise one call, its error passed on |
| `Manager.Manager.AddRoute` | internal/xray/manager.go:160-186 | a failed removal stops the addition unless the answer was "not found"; then the local checks, the build step that may fail, and the addition |
| `Guarantees.RouteLaw` | internal/xray/manager.go:148-186 | a rule that is added has a tag and an outbound or a balancer; one that leads nowhere is refused after the removal that comes first, and not added; without a tag there is no call |
| `Guarantees.AddRouteSucceedsIff` | internal/xray/manager.go:297-303 | a core that answers every call accepts a rule if and only if it has a tag and an outbound or a balancer |
| `Manager.Manager.RemoveUsers` | internal/xray/manager.go:68-72 | the removal loop stops at its first error |
| `Manager.Manager.AddUsers` | internal/xray/manager.go:73-77 | the addition loop stops at its first error |
| `Manager.Manager.ApplyViaHandler` | internal/xray/manager.go:53-79 | nothing to do means no call at all; otherwise connect, remove, add, and report a change only without an error |
| `Manager.Manager.RemoveRoutes` | internal/xray/manager.go:135-139 | the removal loop for rules, which does not tolerate "not found" |
| `Manager.Manager.AddRoutes` | internal/xray/manager.go:140-144 | the addition loop for rules |
| `Manager.Manager.ApplyRoutes` | internal/xray/manager.go:120-146 | the same shape for rules, whose list is normalised again |
| `Manager.Manager.State` | internal/xray/manager.go:39-51 | clients before rules; the rules are not tried when the clients failed; a failing rule batch still reports that clients changed |
| `Apply.StateChangedIff` | internal/xray/manager.go:39-51 | a call that succeeds reports a change if and only if one of the two differences was not empty; after failing clients it reports none and tries no rule, after failing rules it reports whether clients changed |
| `Apply.RunOk` | internal/xray/manager.go:68-77 | a batch that succeeds held only locally valid operations and, without a restart, did exactly what it was meant to do, whatever the core answered on the way |
| `Apply.RunFrame` | internal/xray/manager.go:68-77 | a batch cut short at any call touches no user and no rule it does not name, and keeps the order of the others; if restarts land in it, the rest is what the core boots with |
| `Batch.StateOk` | internal/xray/manager.go:39-51 | after success every key holds the account of its last addition, nothing if it was only removed, and what it held before otherwise; the rules are the untouched ones in old order followed by the additions in normalised list order, for every order of the removals |
| `Batch.StateFrame` | internal/xray/manager.go:39-51 | a call that stopped anywhere leaves all unplanned users and rules as they were or, if restarts landed in it, as the core boots with them |
| `Batch.OrderImmaterial` | internal/xray/manager.go:248-252 | two successful calls that walked the maps in different orders, and met different answers, leave the same users and the same rule list |
| `Batch.RouteAddsDistinct` | internal/xray/manager.go:265-283 | rule additions never repeat a tag, so appending them one by one ends in list order |
| `Drift.UserDriftHealed` | internal/xray/manager.go:53-118 | a successful call removes exactly the planned keys from the disagreement and adds exactly the shadowed ones |
| `Drift.RuleDriftHealed` | internal/xray/manager.go:120-186 | a successful call removes exactly the planned tags from the disagreement on rules, for every list |
| `Drift.DistinctNotShadowed` | internal/xray/manager.go:243-259 | a list without repeated addresses shadows no key |
| `Store.Store.constructor` | internal/state/store.go:17-23 | version minus one and two empty maps |
| `Store.Store.IsUnchanged` | internal/state/store.go:25-43 | true if and only if version and both sizes agree and every listed entry equals the stored one |
| `Store.Store.Update` | internal/state/store.go:45-60 | all three fields are replaced together, the last entry under a name winning |
| `Store.Store.Emails` | internal/state/store.go:62-71 | every stored address exactly once, in some order |
| `Store.Store.ClientsSnapshot` | internal/state/store.go:73-82 | the snapshot equals the stored map |
| `Store.Store.RoutesSnapshot` | internal/state/store.go:84-93 | the snapshot equals the stored map |
| `Reconciler.ClientsUnchanged` | internal/state/store.go:29-36 | when the sizes agree and every listed client is stored there is nothing to add, and nothing is left over if and only if no address repeats; then both maps are equal (a pigeonhole argument) |
| `Reconciler.RoutesUnchanged` | internal/state/store.go:37-41 | the same for a normalised rule list, unconditionally |
| `Reconciler.FastPathIdle` | internal/agent/agent.go:107-110 | when the fast path is taken, the slow path would have issued no call and changed nothing |
| `Reconciler.FastPathRefines` | internal/agent/agent.go:107-138 | with distinct addresses the shortcut cannot be told apart from always doing the work |
| `Reconciler.FastPathComplete` | internal/state/store.go:25-43 | conversely, an equal version and empty differences always take the fast path |
| `Agent.Agent.SyncState` | internal/agent/agent.go:89-139 | the whole method, with store and manager, is one step of the state machine, in some iteration order |
| `Agent.Agent.SyncStateAfterRuntimeReset` | internal/agent/agent.go:85-87 | a reset is the step that compares with empty maps; it has no removals, so no order is left open |
| `Agent.ResetOrders` | internal/agent/agent.go:112-116 | a comparison with empty maps leaves nothing to remove |
| `Runs.SyncConsistent` | internal/agent/agent.go:89-139 | whatever the panel sends and the core answers, stored entries stay filed under their own name, with a configured inbound, a tag and an outbound or balancer |
| `Guarantees.RunRecorded` | internal/agent/agent.go:89-139 | along every run each remembered client is filed under its address and has an inbound for its protocol, and each remembered rule is filed under its tag and has an outbound or a balancer |
| `Runs.RemovalsValid` | internal/xray/manager.go:82-85 | so the missing-inbound error cannot occur in the removal loop |
| `Runs.RouteRemovalsValid` | internal/xray/manager.go:149-151 | and neither can the missing-tag error |
| `Runs.SuccessHeals` | internal/agent/agent.go:130-137 | the exact disagreement after a success, ordinary or reset: before, minus planned, plus shadowed; no assumption about the panel |
| `Runs.SyncFrame` | internal/agent/agent.go:130-133 | any attempt, failed or not, leaves every unplanned user and rule alone; through restarts, as the core boots with it |
| `Runs.FailureContained` | internal/agent/agent.go:130-133 | a failure keeps the memory and changes the disagreement on planned entries only |
| `Runs.StepCovered` | internal/agent/agent.go:89-139 | every step keeps the store valid, the disagreement inside the taint, and what the core holds inside its bound |
| `Runs.RunCovered` | internal/agent/agent.go:60-139 | whole-run agreement: over every interleaving of responses, failures at any call, resets and restarts, also in the middle of a synchronisation, agent and core agree on every user and rule tag outside the taint, which after a restart is exactly the difference between what the core boots with and what is remembered |
| `Guarantees.AgreementIff` | internal/xray/manager.go:213-240 | what full agreement means in the core's own terms: it holds, under the inbound of its protocol, the account of every remembered client, with the right id or password, and nobody else, and exactly the remembered rules, none twice |
| `Runs.AgreementReturns` | internal/agent/command_loop.go:325-355 | after a restart, any number of resets for one response may fail, at any call and through more restarts; if the core boots with nothing that is not listed, the first that succeeds undisturbed empties the taint |
| `Runs.SuccessConvergesIff` | internal/agent/agent.go:107-137 | a success that did its work ends in full agreement if and only if every earlier disagreement was planned for and no key is shadowed; one by the fast path if and only if there was agreement before |
| `Runs.RetryStaysRepairable` | internal/agent/agent.go:89-139 | a retry of one response either ends in full agreement or leaves all disagreement where the next retry looks |
| `Runs.RetriesConverge` | internal/agent/agent.go:60-139 | after any number of failed retries of one response, at arbitrary calls, the first that succeeds restores full agreement; whether one does is `Progress.RetriesAfterTroubleIff` |
| `Limits.MemoryIsOneResponse` | internal/agent/agent.go:130-137 | on every run, version, clients and rules are together those of the last response applied without an error, or the initial ones |
| `Limits.ResetExact` | internal/agent/agent.go:112-137 | a successful reset gives every listed key its account, leaves every other user, and puts the panel's rules last in the panel's order |
| `Guarantees.ListedAccounts` | internal/xray/manager.go:213-240 | after an undisturbed successful reset without repeated addresses every listed client has one of the three protocols and an inbound, and under it an account with its id or password |
| `Limits.ResetFromEmpty` | internal/agent/agent.go:112-137 | on an emptied core it restores full agreement with exactly the normalised rule list |
| `Limits.StraysPersist` | internal/xray/manager.go:248-252 | a user the core serves but the agent does not remember survives all successes, failures and resets until that inbound and address are listed again or the core restarts |
| `Limits.FailedResetsStick` | internal/agent/agent.go:107-110 | once an up-to-date agent's resets have all failed, repeating the same response never touches the core again |
| `Progress.UserBatchIff` | internal/xray/manager.go:68-77 | when every call is answered, a batch of client removals and additions goes through if and only if all are locally valid and, for a core that reports missing users, every user to remove is there |
| `Progress.RuleBatchIff` | internal/xray/manager.go:135-144 | the same for a batch of rule removals and additions |
| `Progress.SyncSucceedsIff` | internal/agent/agent.go:107-137 | progress: when every call is answered and the core stays up, a synchronisation, ordinary or reset, succeeds if and only if it takes the fast path or every addition is locally valid and, for a core that reports missing entries, every stale client's key and every stale tag is in the core |
| `Progress.RetriesApplyIff` | internal/agent/agent.go:60-139 | under such a core, repeating a response ever applies it if and only if it is applicable at the first attempt |
| `Progress.RetriesAfterTroubleIff` | internal/agent/agent.go:60-139 | after any steps in which nothing was applied, and under a core that is steady from then on, retries of a response apply it if and only if its additions are locally valid and, for a core that reports missing entries, every stale client's key and every stale tag is still there |
| `Progress.LostEntryBlocks` | internal/xray/manager.go:68-72 | so for a core that reports missing entries and stays up, one failed attempt that left a stale entry out of the core means that no retry ever applies the response |
| `Limits.RemovalLivelock` | internal/xray/manager.go:68-72 | against a core that reports missing users, a remembered client that the core lost blocks every ordinary response that drops or changes it, whatever else those responses say and however they vary: none is ever applied, and the memory never moves |
| `Limits.RuleRemovalLivelock` | internal/xray/manager.go:135-139 | the same for a remembered rule that the core lost and every response that drops or changes it |
| `Limits.SameListsNoCall` | internal/xray/manager.go:54-57 | a response with a new version and unchanged lists issues no call; only the remembered version moves |
| `Limits.NewVersionsStick` | internal/agent/agent.go:107-137 | so after resets that all failed, no sequence of versions of the remembered lists makes the agent touch the core |
| `Resets.ResetServesIff` | internal/agent/agent.go:112-137 | for every response whose first addition the core does not boot with, a successful reset leaves the core serving it if and only if no restart lands after that first addition, of a client or, with no client listed, of a rule |
| `Resets.RunForgets` | internal/xray/manager.go:68-77 | a user that no call of a batch names is still there after it only if it was before and no restart landed in between |
| `Resets.SyncStaysInside` | internal/agent/agent.go:112-133 | no attempt at one response, ordinary or reset, stopped anywhere and through any restarts, adds anything to the core but what the response lists |
| `Resets.ResetFromInside` | internal/agent/agent.go:112-137 | a successful reset of a core that holds, and boots with, nothing but listed entries restores full agreement with exactly the normalised rule list if and only if no restart lands after its first addition |
| `Commands.ResyncBounded` | internal/agent/command_loop.go:325-355 | one to six attempts, all failed but perhaps the last; no error is returned if and only if the last attempt made succeeded; stopping before the sixth with an error means the wait was cancelled |
| `Commands.ResyncStopsIff` | internal/agent/command_loop.go:325-355 | when exactly the loop stops: at attempt k of six if and only if all before it failed, no wait before it was cancelled, and it succeeds, or is the sixth, or its wait is cancelled; it returns that attempt's outcome, or the cancellation |
| `Commands.ResyncEndsInReset` | internal/agent/command_loop.go:325-355 | the outcome of the loop is that of the last attempt made, from the very state the attempts before it and the other loops left; no error is returned if and only if that attempt succeeded |
| `Commands.GivingUpKeepsMemory` | internal/agent/command_loop.go:325-355 | a retry loop that returns an error, left alone, leaves version, clients and rules as they were |
| `Commands.Actions` | internal/agent/command_loop.go:65-290 | no acknowledgement carries the placeholder mode, failure is reported if and only if there is a problem, and the command's own kind is echoed |
| `Acknowledgements.LogLaw` | internal/agent/command_loop.go:64-268 | one pipeline for all commands: installation, announcement of the installed version (the requested one if that is blank), restart, resets, scheduling, heartbeat and acknowledgement are logged in this order, each exactly when due, once, with its outcome |
| `Acknowledgements.AckLaw` | internal/agent/command_loop.go:64-268 | status, problem, mode and every detail of an acknowledgement are determined by the log before it and the fields of the command; and a command changes the agent's state exactly through a restart that is due |
| `Acknowledgements.SucceededIff` | internal/agent/command_loop.go:64-290 | a command is acknowledged as succeeded if and only if it is known, an update names its target, and its log shows no failed installation, scheduling or restart and no resets that all failed; and what it claims was done |
| `Acknowledgements.ResetsLaw` | internal/agent/command_loop.go:248-290 | after a restart that works, the number of resets is that at which the loop stops from the booted core: waits of a core restart can be cancelled, those of a core update cannot |
| `Acknowledgements.Persistence` | internal/agent/command_loop.go:248-290 | so an updated core ends in a success or in six failed resets whatever is cancelled, and a core restart whose first reset fails and whose first wait is cancelled ends there |
| `Commands.RestoredCoreIff` | internal/agent/command_loop.go:199-290 | a core restart, or an installed core update, is acknowledged as succeeded if and only if the restart worked and a later reset succeeded before the acknowledgement |
| `Commands.ClaimEndsInReset` | internal/agent/command_loop.go:248-267 | such a claim leaves the state of the last reset, which succeeded, from the state it found |
| `Commands.RestoredCoreServes` | internal/agent/command_loop.go:248-290 | such a claim means the agent remembers the response of the last reset; if that reset ran undisturbed the core serves it, and if the core does not boot with its first addition, exactly if no restart landed after that addition |
| `Commands.RestoredCoreAgrees` | internal/agent/command_loop.go:248-290 | when every response received is the same and the core boots with nothing else, such a claim means full agreement of agent and core with exactly the panel's rule list if and only if no restart landed after the first addition of the last reset, however many resets failed first and whatever synchronisations, resets and restarts other loops made in between |
| `Commands.OneAckPerCommand` | internal/agent/command_loop.go:64-268 | whichever of its exits a command takes, the acknowledgement is attempted there, once, and after all other actions |
| `Commands.EveryCommandAckedOnce` | internal/agent/command_loop.go:30-268 | on every run the acknowledgements are those of the fetched commands, one each, in order |
| `Agent.Agent.OtherLoops` | internal/agent/agent.go:60-92 | what other loops do between two attempts, by the same method under the same lock, is a legal run of the state machine |
| `Agent.Agent.SyncStateAfterCoreRestart` | internal/agent/command_loop.go:325-355 | the loop with its early exits is the bounded retry of `Commands`, state, error and log, with the steps that the other loops made before every attempt |
| `Agent.Agent.ExecuteNextCommand` | internal/agent/command_loop.go:52-106 | one turn: a failed fetch or no command changes nothing; otherwise state, log and error are those of the modelled command |
| `Agent.Agent.ExecuteAgentCommand` | internal/agent/command_loop.go:277-290 | restart then resynchronise, or reject an unknown command; the caller posts the acknowledgement |
| `Agent.Agent.RestartAgentAndAck` | internal/agent/command_loop.go:108-140 | an agent restart, scheduled or not, ends in posting its acknowledgement, field by field, and returns the error of the post |
| `Agent.Agent.UpdateAgentAndAck` | internal/agent/command_loop.go:142-197 | every early exit of an agent update posts the acknowledgement it has built so far, and returns the error of the post |
| `Agent.Agent.UpdateCoreAndAck` | internal/agent/command_loop.go:199-268 | every early exit of a core update posts the acknowledgement it has built so far, after the announced version, restart, resets and heartbeat in order |
| `Agent.Agent.PostAck` | internal/agent/command_loop.go:270-275 | one attempt, logged whether or not it fails; the error names the command and is returned exactly when the post fails |
| `Usage.NormalizeExact` | internal/agent/agent.go:396-428 | with addresses distinct but for case, each delta compares an address with its own snapshot, and the new snapshot holds exactly the sampled addresses, for every iteration order |
| `Usage.DeltaBounds` | internal/agent/agent.go:430-438 | for non-negative counters a delta lies between zero and the current value, so it fits wherever the counter does |
| `Usage.DeltasTelescope` | internal/agent/agent.go:430-438 | deltas of consecutive samples sum to last minus first if and only if no sample is below its predecessor; never to less |
| `Usage.RepeatedPollSilentIff` | internal/agent/agent.go:405-420 | for positive counters, a poll repeated without traffic reports zero for everybody if and only if addresses that differ in case only show equal counters, for all orders of both polls |
| `Usage.SharePermuted` | internal/agent/agent.go:405-420 | in which order addresses are listed does not matter to any entry of the books |
| `Meter.GatherIsQuery` | internal/stats/stats.go:34-64 | for a counter per exact address, the readings of a poll are those of the collector, query by query |
| `Meter.NextMeterByRow` | internal/agent/agent.go:149-178 | for addresses that share nothing, traffic, resets, restarts and polls act on every counter and direction separately, in spite of the shared maps: the queries of a poll come one after another, each counter is settled at its own, and traffic goes on in between |
| `Meter.RunSound` | internal/agent/agent.go:396-438 | reported plus pending never exceeds carried: the potential that every event preserves, each query of a poll included |
| `Meter.NoOverReporting` | internal/agent/agent.go:149-178 | on every run of traffic, counter resets, restarts, failing and successful polls, departures, returns and lost posts, whatever arrives between the reads of a poll, no more is delivered than reported, and no more reported than carried since the first sample, as long as no two addresses polled share a snapshot or a counter |
| `MeterLimits.NeverOverReportsIff` | internal/agent/agent.go:396-428 | however the core files its counters, the bound holds on every run over a set of addresses if and only if no two of them share a snapshot or a counter |
| `MeterLimits.SharedCounter` | internal/stats/stats.go:45-51 | addresses that share a counter: two polls that succeed, without any reset, report three bytes of two carried, because the counter moves between its two reads |
| `MeterLimits.SharedSnapshot` | internal/agent/agent.go:405-420 | addresses that share a snapshot but no counter: what one counter held at its first sample is reported as new |
| `MeterLimits.OwnCountersIff` | internal/stats/stats.go:54-84 | for a counter per exact address, as the agent asks for them, the condition is that no two of the addresses differ in case only |
| `MeterLimits.NoUnderReporting` | internal/agent/agent.go:149-178 | while a counter is not reset and every successful poll samples it, carried equals reported plus pending; polls may fail |
| `MeterLimits.UndeliveredIff` | internal/agent/agent.go:149-178 | on every run, whoever shares what, the panel misses exactly the deltas of the polls whose post failed, and it has everything that was reported if and only if every poll that found something was posted |
| `MeterLimits.DeliveredIff` | internal/agent/agent.go:149-178 | so while a counter is not reset and every successful poll samples it, the panel has every byte but the pending ones if and only if every poll that found something was posted |
| `Agent.Agent.NormalizeStatsDeltas` | internal/agent/agent.go:396-428 | both loops over the maps compute the modelled snapshot and deltas, for some iteration order |
| `Agent.Agent.SampleAll` | internal/agent/agent.go:405-420 | the sampling loop |
| `Agent.Agent.Prune` | internal/agent/agent.go:422-426 | the pruning loop keeps exactly the entries sampled this time, unchanged |
| `Agent.Agent.CollectUsage` | internal/agent/agent.go:149-178 | one round: with nobody to ask about it does nothing, not even query; a failed query sends nothing and keeps the snapshot; otherwise counters and snapshot become those of the poll, and exactly one report is sent, of what the poll found for the listed addresses, lower-cased and in increasing order |
| `Reporting.CollectAnsweredIff` | internal/agent/agent.go:149-178 | a round finds something to report, and then for exactly the listed addresses, if and only if all its queries, two for each address, are answered |
| `Reporting.PollAgrees` | internal/agent/agent.go:149-178 | a round in delta mode is a poll of `Meter`, and its report, if it arrives, adds to the panel's books exactly what the poll is said to have delivered, summed over the addresses that read alike in lower case |
| `Reporting.RoundAgrees` | internal/agent/agent.go:149-178 | the same for reset mode and `ResetRead` |
| `Agent.Agent.StatsLoop` | internal/agent/agent.go:141-187 | the usage loop with traffic, core restarts and the other loops around it is a run of `Meter` or of `ResetRead`; adding up the reports that arrived gives, entry by entry, what those books say was delivered |
| `Reporting.ReportBooks` | internal/agent/agent.go:162-168 | reading the samples in one order and reporting them in another books the same bytes for everybody |
| `ResetRead.QueryConserves` | internal/stats/stats.go:66-84 | one reset-on-read query moves bytes from its counter to what it took; what a restart wipes out just before it, and what it zeroes in other counters because their names match its pattern, is lost, and nothing else is |
| `ResetRead.PollConserves` | internal/stats/stats.go:34-64 | a query of many users failing anywhere moves bytes, never makes or loses any, and takes from the listed users only |
| `ResetRead.PollReports` | internal/stats/stats.go:34-52 | a query that succeeds reports exactly the bytes it took, for exactly the users it was asked about |
| `ResetRead.PollTakes` | internal/stats/stats.go:34-84 | what a poll takes of a counter, in closed form: what its query finds, if all queries before were answered and that one was not refused, whether or not a later one fails; otherwise nothing |
| `ResetRead.PollSucceedsIff` | internal/stats/stats.go:34-64 | a poll succeeds if and only if each of its queries, two for every address, is answered |
| `ResetRead.RunBalanced` | internal/agent/agent.go:149-178 | on every run and for every counter, carried = delivered + dropped + still in the counter |
| `ResetRead.DroppedExactly` | internal/agent/agent.go:149-178 | what a run drops of a counter is exactly what restarts and matching queries wiped out and what failed or unposted polls took; it grows if and only if some round loses something |
| `ResetRead.NothingDropped` | internal/agent/agent.go:149-178 | in particular nothing is dropped while queries and posts succeed, the core stays up and no query matches a counter it does not name |
| `ResetRead.FailedPushLoses` | internal/agent/agent.go:151-176 | an answered poll of one address, whose post fails and during which nothing arrives, drops all that the counter held and delivers nothing |
| `ResetRead.StatsService.QueryStats` | internal/stats/stats.go:66-84 | the service's side of one query: traffic first, then reading and zeroing in one step unless refused |
| `ResetRead.Collector.FetchUser` | internal/stats/stats.go:54-64 | uplink before downlink, and no downlink query after a failed uplink |
| `ResetRead.Collector.QueryUsers` | internal/stats/stats.go:34-52 | the loop over the addresses discards everything at the first failure |
| `OnlineNames.AcceptedNames` | internal/stats/stats.go:178-188 | exactly which names are accepted and as what: non-empty address between prefix and suffix, or one of three short names in which the two overlap |
| `OnlineNames.SharedAddress` | internal/stats/stats.go:178-188 | two names are read as one address only for those three |
| `OnlineNames.RoundTrip` | internal/stats/stats.go:25-28 | every non-empty address survives the round trip; the empty one is rejected |
| `OnlineNames.SpelledNames` | internal/stats/stats.go:25-28 | both laws in the core's own spelling, "user>>>", the address, ">>>online" |
| `Checksum.ParseChecksum` | internal/selfupdate/selfupdate.go:286-302 | the line loop with its early returns computes the hash of the first line that names the asset |
| `Checksum.EmptyIff` | internal/selfupdate/selfupdate.go:286-302 | for every text and asset, the empty answer is given if and only if no line names the asset |
| `Checksum.LineLaw` | internal/selfupdate/selfupdate.go:286-299 | the hash is the first and the name the last of any number of fields; a name alone is no line for it; white space before a tagged hash is dropped |
| `Checksum.UsualLines` | internal/selfupdate/selfupdate.go:286-291 | two spaces or a tab separate hash and name, and a carriage return after the name is dropped |
| `Checksum.RenderedListsParse` | internal/selfupdate/selfupdate.go:286-302 | for every list of entries rendered in the two styles, mixed at will, the first entry that names the asset, or whose tagged line ends in a hash that reads like it, decides; the answer is empty if and only if there is none |
| `Checksum.RenderedListsFoundIff` | internal/selfupdate/selfupdate.go:286-302 | the answer is the hash of the first entry for the asset if and only if no such confusable entry stands before it or is it, or that hash reads "SHA256" |
| `Checksum.HashLikeAsset` | internal/selfupdate/selfupdate.go:289-293 | a list that starts with a tagged line whose hash reads like the asset is answered "SHA256" |
| `Witnesses.RepeatedAddressAddsLoser` | internal/xray/manager.go:243-259 | of two entries under one address the difference may add the one that loses |
| `Witnesses.RepeatedAddressHidesRemoval` | internal/state/store.go:25-43 | a repeated entry makes the fast path overlook a client that has gone |
| `Witnesses.ChangeOfMindLeavesStray` | internal/agent/agent.go:130-137 | a panel that withdraws a client after an unanswered addition gets a success while the core serves that client |
| `Witnesses.LostAnswerBlocks` | internal/xray/manager.go:68-72 | against a core that reports missing users, one removal that takes effect but goes unanswered fails the attempt, and no later response without that client is ever applied |
| `Witnesses.RestartDuringReset` | internal/agent/command_loop.go:325-342 | a restart in the middle of a reset loses what was already added, and the reset reports success |
| `Witnesses.FoldedAddressesOverReport` | internal/agent/agent.go:405-420 | two addresses that differ in case only, with counters of their own, are reported over and over without traffic |

## Left out

- `isRouteNotFoundError`: how an error is recognised as "not found" (status codes and substrings) is not modelled; the core's reply is classified directly.
- Building a rule's configuration for the core (JSON, router configuration, typed message) is one step that may fail; the local checks before it are modelled.
- Opening a connection is one step that may fail and changes nothing; the source's client connects lazily, which is a special case.
- Error texts: errors are classified by cause, and the wrapping messages of the source are dropped.
- Lower-casing is an arbitrary function from strings to strings; Unicode case folding is not modelled.
- `Meter.NoOverReporting`: integers are unbounded; by `Usage.DeltaBounds` no delta leaves the range of its counter.
- `ResetRead.QueryConserves`: which other counters a query's pattern matches is an arbitrary relation; matching of substrings is not modelled.
- `Commands.Actions`: a command's payload is represented by the target version it holds, already trimmed and prefixed, empty if it holds none.
- `Agent.Agent.SyncState`: the response is a parameter, either a state or an error; fetching and decoding it are not modelled, nor is the lock, which is what makes the method a single step.
- `Agent.Agent.CollectUsage`: whether the post arrives is a parameter, and the report's time stamp is not modelled.
- `Checksum.ParseChecksum`: works on characters; text that is not valid UTF-8 is not modelled.
- The source's longer loops are split into methods of their own (`RemoveUsers`, `SampleAll`, `SortedEmails`, `CollectFor` and others), which the source writes inline.
- Tickers, intervals, deadlines and logging: a deadline appears as a call without an answer or as a cancelled wait.
- Online users, heartbeats, host metrics, update checks, installers, configuration, the HTTP client and the command line.

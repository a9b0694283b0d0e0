# Verified model of the browser gateway

The gateway routes browser sessions to providers, pools pages, records screencasts and multiplexes
its own CDP commands with a client's on one socket. This project models that behaviour in Dafny and
proves what it is meant to guarantee. Verify everything with `dafny verify dfyconfig.toml`.

| file | what it models |
|---|---|
| `Basics.dfy`, `Buffers.dfy`, `Providers.dfy` | shared datatypes and the copying of bytes; provider records and the eligibility predicates of `effective.ts` |
| `WeightedRoundRobin.dfy` | the smooth weighted round-robin and its fairness |
| `Cooldown.dfy` | failure windows and cooldowns, pruned lists against the full history |
| `Registry.dfy`, `Sorting.dfy`, `Selector.dfy`, `Shares.dfy` | the provider maps, the stable sort, the candidate lists of all strategies; what weighted answers give each provider |
| `Concurrency.dfy`, `Slots.dfy` | slot counting over whole runs; what each operation does to the records |
| `Gateway.dfy`, `Requests.dfy` | the request queue, and the gateway object over all of the above; the waiting requests told from the events of a run |
| `SessionPool.dfy`, `PoolPages.dfy` | the session pool as a machine of atomic steps; its pages, handles and sessions field by field |
| `Fnv.dfy`, `Replay.dfy`, `Recording.dfy` | the two forms of the hash; the screencast recorder, its chunks and manifest; a recording told from the events of its run |
| `Pipeline.dfy`, `Traffic.dfy` | internal ids, message routing, start and end of a CDP pipeline; what it puts on its two sockets |
| `ProfileLimits.dfy`, `Blob.dfy`, `HelperPool.dfy` | profile limits and merge, the blob codec, the shared-cursor helpers |
| `Keys.dfy`, `Input.dfy`, `Gestures.dfy` | key chords, input gestures against a browser that replays their events, and the gestures event by event |

Time is an argument that never goes back where a theorem says so. Code between two awaits is one
step; a run is any list of steps, so what is proved of runs holds for every interleaving. Objects
the program updates in place are classes; each method is proved equal to a step function on the
object's abstract state, and the theorems are about runs of those steps. That the pool runs one
acquisition at a time is how its lock chain is modelled, not a theorem.

Where the code does not do what its documentation or callers suggest, the model follows the code,
a lemma names an input, and another says exactly when it does:

- `waitForSlot` gives up at once on requests a provider could serve once it has room. The check reads
  the configuration, routing reads the detected kind, so it turns away what a full browserserve
  provider would serve (`Gateway.GivesUpTooEarly`). And the caller drops the read-only flag, under
  which any provider serves any profile (`Gateway.ReadOnlyGivesUpTooEarly`).
  `Gateway.GivesUpRightlyIff` says exactly when it is right.
- The check also looks at providers the request's pin rules out, so that a pinned request may wait for
  a provider that can never serve it (`Gateway.WaitsInVain`, `Gateway.WaitsInVainIff`,
  `Gateway.OnlyPinsWaitInVain`). For want of the read-only flag the queue passes over waiters a freed
  provider would serve (`Gateway.ReadOnlyPassedOver`, `Gateway.GrantMeaning`).
- A client's session key is reused until its session is registered, so two upgrades at once acquire
  under one id, and a slot stays counted for ever (`Concurrency.DoubleAcquireRun`,
  `Concurrency.AcquireKeepsBalanceIff`, `Concurrency.DoubleAcquireLosesSlotForEver`).
- A sweep while a provider is disabled untracks its sessions without freeing their slots, after which
  the provider can never be removed again (`Concurrency.SweepLeaksSlot`,
  `Concurrency.CountEqualsTrackedIff`, `Concurrency.LeakedProviderCannotBeRemoved`).
- An origin named by the empty string stops the size loop, so a profile can be refused "even with
  all origins removed" while origins are left (`ProfileLimits.RefusedForNothing`, `ProfileLimits.RefusedIff`).
- `onSessionEnd` does run when starting fails because the upstream closed, although the comment on
  `start` excludes it (`Pipeline.EndHooksRunAfterFailedStart`,
  `Pipeline.FailedStartRunsNoEndHookIff`).
- A client may use ids of 2^30 and more. With that of a pending internal call its command goes upstream all
  the same and its answer settles the plugin's call (`Traffic.ClientTakesInternalId`); as long as it
  does not, every internal id goes upstream once (`Traffic.InternalIdsSentOnce`). A client that cannot
  keep up makes the pipeline lose replies to its own calls (`Traffic.CongestionLosesReplies`).
- A handle that maintenance released by force can be released again by its owner, and then one page
  more is given back than was opened (`PoolPages.ReleaseKeepsTallyIff`, `PoolPages.PagesAreHandles`).
- A success callback that throws has its origin reported twice
  (`HelperPool.ThrowingCallbackReportsTwice`, `HelperPool.TakenIsReported`).
- Clicking a held button, or chording a held key, leaves it marked as held though the page saw it
  released (`Input.ClickOfHeldButton`, `Input.ClickAgreesIff`; `Input.ChordOfHeldKey`,
  `Input.ChordAgreesIff`). A chord of one modifier is, despite the comment on `parseChord`, the
  chord's key, and its events carry masks without it (`Input.ChordOfShift`, `Input.StepAgreesIff`,
  `Keys.ModifiersOnlyHasNoKeyIff`).

The table lists the main results first, then the lemmas and functions they rest on, then the methods.

## Model

| member | source | states |
|---|---|---|
| `WeightedRoundRobin.ExactFairness` | src/core/router/selector.ts:122-148 | after k W calls every provider led exactly k times its weight and every counter is back at zero, for every k and every order of the lists |
| `WeightedRoundRobin.NeverFarAhead` | src/core/router/selector.ts:122-148 | in a steady run from zero, after t calls a provider of weight w led at most (t w + W - 1) / W times, and its counter is above -W |
| `WeightedRoundRobin.NeverFarBehind` | src/core/router/selector.ts:122-148 | with n - 1 other providers it led at least (t w - (n-1)(W-1)) / W times, and its counter is at most (n-1)(W-1) |
| `WeightedRoundRobin.ZeroSum` | src/core/router/selector.ts:122-148 | over every run, also with candidates or weights changing between calls, the counters sum to zero |
| `Selector.CandidatesAreTheEligible` | src/core/router/selector.ts:57-118 | for every strategy the unpinned answer lists exactly the eligible enabled providers, each once |
| `Selector.PinnedCandidates` | src/core/router/selector.ts:57-66 | a pinned request is answered with that provider if enabled and eligible, else with nothing |
| `Selector.TrippedProviderStaysOut` | src/core/router/selector.ts:57-81 | from a trip at t until t + defaultMs no answer names the provider, over any run of failures, successes and queries, whatever else changes in its record or the registry |
| `Selector.PriorityChainOrder` | src/core/router/selector.ts:68-89 | of any two providers in the answer the one with the lower priority number stands first, or, if equal, the one registered earlier |
| `Selector.LeastConnectionsOrder` | src/core/router/selector.ts:68-100 | of any two in the answer the one with fewer active sessions stands first; if equal, the lower priority number; then the one registered earlier |
| `Selector.LatencyOrder` | src/core/router/selector.ts:68-109 | measured providers stand before unmeasured ones and the faster before the slower; if equal, the lower priority number; then the one registered earlier |
| `Selector.RoundRobinLeadsEachOnce` | src/core/router/selector.ts:91-96 | n consecutive round-robin calls on a stable list of n are led by each provider exactly once, wherever the index stands |
| `Selector.NonemptyIffSatisfiable` | src/core/router/selector.ts:57-81 | the answer is non-empty exactly when some enabled provider meets the request |
| `Selector.CandidateMeaning` | src/core/router/selector.ts:57-81 | on its fields: a provider is a candidate exactly if it is the pinned one if any is, no deadline is ahead, no ceiling of its own or else advertised is reached, and, unless read-only, it is browserserve, has no profile or the requested one |
| `Shares.WeightedShares` | src/core/router/selector.ts:83-148 | of k W weighted answers of the selector on the same candidates, W the sum of their configured weights (one where none is set), each is led exactly k times its weight by every candidate |
| `Cooldown.WindowRefinement` | src/core/tracking/cooldown.ts:20-86 | lazily pruned lists and the full history give equal provider records and equal windows, after any mix of events over any providers with a nondecreasing clock |
| `Cooldown.FailureMeaning` | src/core/tracking/cooldown.ts:20-44 | over runs: a failure cools the provider down until exactly defaultMs from now if it and the failures and successes of the last 60 s are at least the minimum volume and the failures at least the threshold's share; it is counted and dated either way, nothing else changes |
| `Cooldown.CooldownExclusion` | src/core/tracking/cooldown.ts:39-69 | after a trip at time t the provider is in cooldown at every time before t + defaultMs, under any interleaving of later events |
| `Concurrency.SlotConservation` | src/core/tracking/concurrency.ts:8-52 | over whole disciplined runs each provider's active count is its tracked sessions plus those swept while it was disabled |
| `Concurrency.CountEqualsTrackedIff` | src/core/tracking/concurrency.ts:8-52 | in every disciplined run a registered provider's active count equals its tracked sessions exactly if no sweep met it disabled with a stale session of its own |
| `Concurrency.SweepLeaksSlot` | src/core/tracking/concurrency.ts:36-52 | a run of four events after which one slot is counted and no session tracked |
| `Concurrency.LeakedProviderCannotBeRemoved` | src/server/app.ts:692-698 | once a slot has leaked, after every disciplined continuation the provider is still registered and its removal refused |
| `Concurrency.NeverOverCeiling` | src/core/tracking/concurrency.ts:8-18 | no provider is over its ceiling as long as no ceiling is lowered, disciplined callers or not |
| `Concurrency.AcquireKeepsBalanceIff` | src/core/tracking/concurrency.ts:8-18 | an accepted acquisition keeps the balance exactly when its session id was not tracked |
| `Concurrency.DoubleAcquireLosesSlotForEver` | src/core/tracking/concurrency.ts:8-18 | one under a tracked id loses a slot of the earlier holder: after every disciplined continuation that provider counts more than it tracks and its removal is refused |
| `Concurrency.DoubleAcquireRun` | src/server/ws/upgrade.ts:394 | two acquisitions under one session id and their two releases leave one slot counted |
| `Concurrency.ReleaseKeepsBalanceIff` | src/core/tracking/concurrency.ts:20-26 | the release of a tracked session keeps the balance exactly when it names the provider holding it |
| `Gateway.QueueProtocol` | src/core/gateway.ts:181-284 | in every reachable state each ticket is waiting or answered exactly once, at most maxSize wait, in arrival order, and nobody once shutdown has begun |
| `Requests.EveryGrantIsDeserved` | src/core/gateway.ts:181-263 | every grant of a run went to a request of that run, which waited, at a freed slot, servable by its own target and profile, and before no earlier servable one |
| `Requests.GrantsOwnRequest` | src/core/gateway.ts:234-263 | over runs: a freed slot grants the earliest waiting request the providers can serve by its own target and profile, leaves the others in order, and changes nothing if there is none |
| `Requests.AskMeaning` | src/core/gateway.ts:181-232 | told to go ahead exactly if the gateway is up and some provider can serve it; queued at the end exactly if none can, there is room, the pinned provider if any is there and not cooling down, and some configuration admits the profile; else refused |
| `Gateway.GrantsComeFromFreedSlots` | src/core/gateway.ts:234-263 | answers are never changed, and every grant was given by a freed slot to the earliest waiter then ready |
| `Gateway.ShutdownIsFinal` | src/core/gateway.ts:275-284 | after shutdown has begun no event changes the empty queue |
| `Gateway.GivesUpRightlyIff` | src/core/gateway.ts:198-205 | of the requests that reach the configuration check, pinned or not, read-only or not, exactly those no configuration admits are refused; rightly, for ever unservable, exactly if the request writes back and no provider the pin allows is browserserve, or the pin allows none |
| `Gateway.GivesUpTooEarly` | src/core/gateway.ts:198-205 | a request refused at once although a provider that is merely full would serve it |
| `Gateway.ReadOnlyGivesUpTooEarly` | src/server/ws/upgrade.ts:411-483 | a read-only request refused at once although the only provider, merely full, would serve it |
| `Gateway.WaitsInVainIff` | src/core/gateway.ts:198-232 | of those queued, exactly the ones that write back and whose allowed providers are all bound to another profile and not browserserve can never be served |
| `Gateway.WaitsInVain` | src/core/gateway.ts:198-232 | a pinned request queued although its provider can never serve it |
| `Gateway.OnlyPinsWaitInVain` | src/core/gateway.ts:198-232 | with configurations the schema accepts only a pinned request that writes back can wait in vain |
| `Gateway.GrantMeaning` | src/core/gateway.ts:234-263 | a waiter is ready only while some provider can serve its request, read-only or not; a servable waiter is passed over exactly if it is read-only and every free provider its pin allows is bound to another profile |
| `Gateway.ReadOnlyPassedOver` | src/server/ws/upgrade.ts:411-483 | a read-only request left waiting while a freed provider would serve it |
| `Gateway.HopelessIff` | src/core/router/selector.ts:57-75 | no freed slots and ended cooldowns ever let the caller find a provider exactly if the request writes back and no allowed provider is eligible for its profile |
| `Registry.DisableThenEnable` | src/core/providers/registry.ts:54-77 | disabling and enabling keeps the whole record, slot count included, and every other provider |
| `SessionPool.PoolCapacity` | src/core/pool/session-pool.ts:74-177 | from start, under every interleaving: active + starting <= maxSessions, pages per session and total pages within limits, at most one waiter, none while a session has room, and room for the page being opened |
| `PoolPages.PagesAreHandles` | src/core/pool/session-pool.ts:74-210 | from start, over every run in which no handle is released twice, a session's pages are its live handles plus its releases in flight |
| `PoolPages.ReleaseKeepsTallyIff` | src/core/pool/session-pool.ts:179-191 | a release begun keeps that tally exactly if it is a first one: the handle is live, or went with its session |
| `PoolPages.ReleaseMeaning` | src/core/pool/session-pool.ts:189-209 | a finished release takes one page off its session, not below zero; a retiring session without pages leaves the map; every other session stays as it was |
| `PoolPages.OpenedMeaning` | src/core/pool/session-pool.ts:143-176 | an opened page is one page and one served page more on its session, which retires with its last; a new handle names it; at most one session is started besides, nothing else changes |
| `PoolPages.MaintenanceMeaning` | src/core/pool/session-pool.ts:490-541 | a pass takes out only over-age, idle or drained sessions, leaves none drained, an idle one only if no more than minSessions are active, and releases by force exactly the handles held for twice the page timeout |
| `SessionPool.MaintenanceRetires` | src/core/pool/session-pool.ts:490-541 | a maintenance pass, in every reachable state, retires every active session past its lifetime; with those counted in, at least minSessions or as many as before stay active |
| `SessionPool.IdleRetirementKeepsMinimum` | src/core/pool/session-pool.ts:490-526 | from any state whatever, with those counted in that retire for their age, a pass leaves at least minSessions active, or as many as before |
| `Replay.ReplayRoundTrip` | src/pipeline/plugins/screencast-capture.ts:356-424 | every record leads to its frame in its chunk, prefix included, frames are numbered 1 to N, and scanning any chunk yields its frames with nothing left over |
| `Recording.FrameMeaning` | src/pipeline/plugins/screencast-capture.ts:301-354 | over runs: a frame below the cap adds one to the dropped exactly if its url passes and maxInFlight writes are out, one to the skipped exactly if it is filtered or, with room in flight, hashes as the last frame recorded for this arming; else it is captured |
| `Recording.CapturedAreRecordings` | src/pipeline/plugins/screencast-capture.ts:301-354 | so over every run both counters and the captured frames, in order, are those of the events |
| `Recording.RecordMeaning` | src/pipeline/plugins/screencast-capture.ts:356-402 | the record of a captured frame: target and url from the events, length, number, and the place that the record before it, both chunk limits and the time of the chunk's first frame determine |
| `Replay.ChunksHoldEverything` | src/pipeline/plugins/screencast-capture.ts:356-424 | all chunks read in order give exactly the captured frames in order |
| `Replay.FramesConserved` | src/pipeline/plugins/screencast-capture.ts:301-402 | of the events of a run, the frames of targets armed at that moment, before stop or end, are as many as recorded, dropped and skipped ones, plus at most one that found the cap reached |
| `Replay.ReplayBounds` | src/pipeline/plugins/screencast-capture.ts:228-424 | over whole runs: the byte total is the sum of lengths under the cap plus the last frame, writes in flight are bounded, chunks fit or hold one frame |
| `Replay.ManifestIsReadable` | src/pipeline/plugins/screencast-capture.ts:228-255 | the manifest names exactly the frames of chunks that did not fail, and each can be read back from what was written |
| `Fnv.HashesAgree` | src/pipeline/plugins/screencast-capture.ts:433-440 | the shift-add form and the multiply form give the same unsigned 32-bit hash on every sequence |
| `Pipeline.NoInternalIdReachesClient` | src/pipeline/pipeline.ts:252-317 | over every run no message sent to the client carries an internal id, with response hooks that keep ids |
| `Traffic.SendMeaning` | src/pipeline/pipeline.ts:91-101 | in every reachable state: a send that succeeds appends exactly one message with the given body and an internal id never handed out before, which is pending then; one that throws appends nothing and its call has failed |
| `Traffic.SendOneWayMeaning` | src/pipeline/pipeline.ts:103-112 | the same for a one-way send, whose id is settled at once |
| `Traffic.SentIsAnswered` | src/pipeline/pipeline.ts:91-101 | whatever happens in between, the reply with the id of the message sent settles that call alone, as the reply says, and reaches no client |
| `Traffic.InternalIdsSentOnce` | src/pipeline/pipeline.ts:91-112 | as long as the client keeps below 2^30 every internal id goes upstream at most once, in ascending order |
| `Traffic.ClientTakesInternalId` | src/pipeline/pipeline.ts:210-283 | a client command with the id of a pending internal call goes upstream, and its answer settles that call and never reaches the client |
| `Traffic.CongestionLosesReplies` | src/pipeline/pipeline.ts:261-269 | with a client that cannot keep up all but binary frames is lost, replies to internal calls included |
| `Traffic.CommandMeaning` | src/pipeline/pipeline.ts:233-250 | a client message goes upstream as the command hooks, one after the other, leave it |
| `Traffic.DropMeaning` | src/pipeline/pipeline.ts:221-250 | it goes nowhere if a hook drops what those before it left; what is no message goes upstream as it is |
| `Pipeline.ResponseRouting` | src/pipeline/pipeline.ts:279-298 | a response reaches the client as exactly one message with its id iff the id is below 2^30; else a pending call with that id is settled as the reply says |
| `Pipeline.SettledAtMostOnce` | src/pipeline/id-space.ts:14-59 | every internal id handed out is pending or settled exactly once, and a settlement stands |
| `Pipeline.NothingPendingAfterReject` | src/pipeline/pipeline.ts:319-333 | whatever happens after rejectAll has run, at the end or after a failed start, every internal call made before is settled exactly once and only later ones can be pending |
| `Pipeline.EndHooksOnceInReverse` | src/pipeline/pipeline.ts:335-344 | the end hooks invoked are distinct, in reverse plugin order, and complete when over |
| `Pipeline.FailedStartRunsNoEndHookIff` | src/pipeline/pipeline.ts:120-144 | where some plugin has an end hook, a failed start is followed by none, whatever comes later, exactly if the pipeline was still open when it failed |
| `Pipeline.FinalizeRunsEndHooks` | src/pipeline/pipeline.ts:319-333 | every other close runs them, the last plugin's at once |
| `Pipeline.EndHooksRunAfterFailedStart` | src/pipeline/pipeline.ts:120-149 | the comment's exception: they run when starting fails because the upstream closed |
| `ProfileLimits.EnforcedPartition` | src/core/profile/limits.ts:34-90 | kept and evicted origins partition the input, kept data unchanged; an accepted profile fits both caps and reports its own size; a refused one comes back untouched |
| `ProfileLimits.EvictedAreOlder` | src/core/profile/limits.ts:34-103 | across count cap and size loop nothing evicted is newer than anything kept |
| `ProfileLimits.EvictionIsMinimal` | src/core/profile/limits.ts:64-70 | with the size loop's last victim put back the profile breaks the cap |
| `ProfileLimits.RefusedIff` | src/core/profile/limits.ts:64-81 | refused exactly when over the cap with no origins, or stuck on the empty origin |
| `ProfileLimits.RefusedForTheStatedReason` | src/core/profile/limits.ts:64-81 | without an empty origin, refused exactly when over the cap with no origins |
| `ProfileLimits.RefusedForNothing` | src/core/profile/limits.ts:64-81 | a profile refused although dropping its one origin, the empty one, would do |
| `ProfileLimits.SavedProfile` | src/core/profile/save.ts:41-80 | through merge and limits: a saved profile fits both caps, reports its size, and each of its origins carries the captured data if captured, else the loaded data |
| `ProfileLimits.PreparedMeaning` | src/core/profile/save.ts:41-80 | exactly when each of the three answers is given, and when a save warns |
| `Blob.BlobRoundTrip` | src/core/profile/blob.ts:34-115 | for every plaintext, id, key, key version 1 to 255 and compression choice: the header decodes to exactly what was written, the same id gets the plaintext, every other id is rejected |
| `Blob.AcceptedBlobsAreLayouts` | src/core/profile/blob.ts:67-103 | every accepted buffer is the layout of its decoded header, up to the bytes nobody reads |
| `Blob.DecodeMeaning` | src/core/profile/blob.ts:105-115 | behind an accepted header: each error exactly in its case, and an answer only for a body that opens, and unzips if zipped |
| `HelperPool.ReportsMatchOutcomes` | src/core/profile/helper-pool.ts:173-198 | over runs an origin has a success report exactly if its work succeeded, and an error report exactly if its work or its success callback failed |
| `HelperPool.EveryOriginReportedOnce` | src/core/profile/helper-pool.ts:173-198 | with a helper, no abort and no throwing error callback every interleaving reports each origin exactly once, or twice where its success callback threw, and nothing else |
| `HelperPool.TakenIsReported` | src/core/profile/helper-pool.ts:173-198 | with aborts and throwing callbacks too: an origin the cursor passed is reported twice if its success callback threw, else exactly once; any other not at all |
| `HelperPool.ThrowingCallbackReportsTwice` | src/core/profile/helper-pool.ts:189-194 | a throwing success callback has its origin reported as success and as error |
| `Input.RunAgrees` | src/agent-tools/input.ts:12-253 | after any operations that click or chord nothing held, a browser replaying all events has exactly the buttons, keys and position of the local state; and every mask sent was exactly what was down, with the modifiers a click names, exactly if no chord was a lone modifier |
| `Input.StepAgreesIff` | src/agent-tools/input.ts:52-253 | one operation keeps the agreement exactly when it clicks or chords nothing held, and its masks are exact unless it chords a lone modifier |
| `Input.ClickAgreesIff` | src/agent-tools/input.ts:52-70 | a click agrees, and says the truth, exactly when its button was not held |
| `Input.ClickOfHeldButton` | src/agent-tools/input.ts:52-70 | a click after which a button counts as held that the page saw released |
| `Input.ChordAgreesIff` | src/agent-tools/input.ts:191-218 | a chord restores what was down exactly when its key was not held; its masks are true exactly when it is no lone modifier |
| `Input.ChordOfHeldKey` | src/agent-tools/input.ts:191-218 | the same for a key |
| `Input.ChordOfShift` | src/agent-tools/keys.ts:155-165 | the chord of Shift alone: Shift is its key, and its masks lack it |
| `Input.ReleaseAllReleasesAll` | src/agent-tools/input.ts:248-253 | afterwards nothing is held, in the local state or the browser |
| `Keys.SplitRoundTrip` | src/agent-tools/keys.ts:168-182 | parts joined by plus signs split back into themselves, the plus key among them |
| `Keys.ChordMeaning` | src/agent-tools/keys.ts:150-166 | refused exactly when empty or with two non-modifier keys; else the distinct modifiers and the one key are the parts |
| `Keys.ModifiersOnlyHasNoKeyIff` | src/agent-tools/keys.ts:148-166 | a chord of modifiers only has no key exactly if it has several parts |
| `WeightedRoundRobin.NextTotal` | src/core/router/selector.ts:122-148 | one call keeps the sum of all counters, whatever the candidates and weights |
| `WeightedRoundRobin.SteadyRun` | src/core/router/selector.ts:122-148 | the book-keeping: a counter is entitlement minus what was given, and never falls to -W |
| `WeightedRoundRobin.SteadySum` | src/core/router/selector.ts:122-148 | with a fixed set of providers their counters sum to zero after every prefix |
| `WeightedRoundRobin.LeaderPositive` | src/core/router/selector.ts:131-144 | whoever leads has a positive counter before it pays the total |
| `WeightedRoundRobin.NextGet` | src/core/router/selector.ts:125-144 | one call adds a provider its weight, and takes the total from the leader alone |
| `WeightedRoundRobin.Leader` | src/core/router/selector.ts:131-141 | the leader is the first candidate with the highest counter |
| `Cooldown.AgreeStep` | src/core/tracking/cooldown.ts:20-86 | one failure, success or query keeps the pruned and the full state in agreement |
| `Cooldown.CooldownPersists` | src/core/tracking/cooldown.ts:20-69 | no failure, success or query shortens a running cooldown |
| `Registry.OperationsKeepKeys` | src/core/providers/registry.ts:41-77 | register, disable, enable and remove keep ids unique, within and across the two maps |
| `Registry.StoreKeepsKeys` | src/core/providers/registry.ts:41-77 | writing a record back changes what is found for its own id only |
| `Sorting.SortSorts` | src/core/providers/registry.ts:191-195 | for a total preorder the sort returns a sorted list |
| `Sorting.SortKeepsElements` | src/core/providers/registry.ts:191-195 | the sort is a permutation |
| `Sorting.SortListed` | src/core/providers/registry.ts:191-195 | the sort is in the comparator's order and, among ties, in whatever order the list was in before |
| `Selector.CoolingIsNoCandidate` | src/core/router/selector.ts:57-81 | a provider in cooldown is in no answer, pinned or not |
| `Selector.OrderedIsPermutation` | src/core/router/selector.ts:83-148 | each of the five strategies returns a permutation of its list |
| `Selector.ComparatorsArePreorders` | src/core/router/selector.ts:98-109 | the comparators of priority, least-connections and latency are total preorders |
| `Selector.PriorityOrder` | src/core/providers/registry.ts:191-195 | the same providers, and of any two the one with the lower priority number first, or, if equal, the one registered earlier |
| `Selector.TurnsProgress` | src/core/router/selector.ts:91-96 | which of the first t calls a provider leads |
| `Concurrency.BalancedStep` | src/core/tracking/concurrency.ts:8-52 | every acquisition, release, sweep, configuration change, removal and probe keeps that balance |
| `Concurrency.LeakedStep` | src/core/tracking/concurrency.ts:36-52 | leaked slots are never given back, and exactly such a sweep adds to them |
| `Concurrency.LeakedGrows` | src/core/tracking/concurrency.ts:36-52 | so over whole runs they never become fewer |
| `Concurrency.NothingLeakedIff` | src/core/tracking/concurrency.ts:36-52 | nothing has leaked exactly if no such sweep happened |
| `Concurrency.DoubleAcquireLosesOne` | src/core/tracking/concurrency.ts:8-18 | exactly one slot is lost |
| `Concurrency.LateReleaseChangesNothing` | src/core/tracking/concurrency.ts:20-26 | a repeated or late release changes nothing |
| `Concurrency.CeilingStep` | src/core/tracking/concurrency.ts:8-52 | one event keeps every provider within an unlowered ceiling |
| `Gateway.WakesEarliestReady` | src/core/gateway.ts:234-263 | a freed slot wakes the earliest entry whose own constraint is satisfiable, only that one, and keeps the others in order |
| `Gateway.SelectOnlyRefreshes` | src/core/router/selector.ts:57-81 | asking for candidates changes provider records only by clearing passed cooldowns |
| `Gateway.RefreshKeepsSatisfiable` | src/core/gateway.ts:188-196 | clearing passed cooldowns does not change which requests can be met |
| `Gateway.RefreshKeepsChecks` | src/core/gateway.ts:193-205 | nor what the two early exits answer |
| `SessionPool.RunWakes` | src/core/pool/session-pool.ts:543-566 | no wake-up is lost: over every run nobody waits while some session has room |
| `SessionPool.OtherWakes` | src/core/pool/session-pool.ts:179-210 | no release, connection, disconnect, close, timer or maintenance leaves a waiter beside a session with room |
| `SessionPool.AcquisitionWakes` | src/core/pool/session-pool.ts:95-177 | no step of an acquisition does |
| `SessionPool.StepKeeps` | src/core/pool/session-pool.ts:74-177 | every atomic step keeps the capacity invariant |
| `SessionPool.RunKeeps` | src/core/pool/session-pool.ts:74-177 | so does every run from any state that has it |
| `SessionPool.PassKeepsMinimum` | src/core/pool/session-pool.ts:494-526 | over any list of sessions looked at, idle retirement and expiry together account for every active session lost below minSessions |
| `SessionPool.LostKeeps` | src/core/pool/session-pool.ts:389-406 | a disconnect, also of the session a page is being opened on, keeps the invariant |
| `SessionPool.ConnectKeeps` | src/core/pool/session-pool.ts:384-430 | a session that connects or fails to keeps the invariant |
| `SessionPool.PageOpenedKeeps` | src/core/pool/session-pool.ts:131-176 | counting the opened page keeps the limits, even after the session was retired or lost meanwhile |
| `SessionPool.MaintainedKeeps` | src/core/pool/session-pool.ts:495-526 | maintaining one session keeps the invariant |
| `SessionPool.ReleasedKeeps` | src/core/pool/session-pool.ts:189-209 | finishing any of the releases in flight keeps the invariant |
| `SessionPool.FindAvailable` | src/core/pool/session-pool.ts:432-445 | the first active session with room among those with the fewest pages |
| `Fnv.StepsAgree` | src/pipeline/plugins/screencast-capture.ts:437 | one round agrees on every signed 32-bit value, overflow and sign included |
| `Fnv.Turns` | src/pipeline/plugins/screencast-capture.ts:437 | ToInt32 changes a number by whole multiples of 2^32 |
| `Fnv.Fnv1a32` | src/pipeline/plugins/screencast-capture.ts:433-440 | the recorder's loop |
| `Fnv.Fnv1a` | src/agent-tools/hash.ts:2-9 | the agent tools' loop |
| `Replay.StepCounts` | src/pipeline/plugins/screencast-capture.ts:301-402 | one event adds one to recorded, dropped or skipped exactly if it is such a frame and the cap is not reached |
| `Replay.ScanEncoded` | src/pipeline/plugins/screencast-capture.ts:376-380 | scanning the concatenation of prefixed frames gives back the frames |
| `Replay.PrefixRoundTrip` | src/pipeline/plugins/screencast-capture.ts:377-378 | the 4-byte big-endian prefix reads back as the length, below 2^32 |
| `Replay.LayoutStep` | src/pipeline/plugins/screencast-capture.ts:356-424 | every event keeps records and bytes consistent |
| `Replay.CountStep` | src/pipeline/plugins/screencast-capture.ts:397-401 | every event keeps the byte total right and under the cap plus the last frame |
| `Replay.WriteStep` | src/pipeline/plugins/screencast-capture.ts:228-255 | writes in flight stay within maxInFlight, plus one at session end |
| `Replay.SizeStep` | src/pipeline/plugins/screencast-capture.ts:367-381 | chunks stay within chunkMaxBytes or hold one frame |
| `Replay.SurvivingExactly` | src/pipeline/plugins/screencast-capture.ts:239 | the filter drops exactly the frames of failed chunks |
| `Replay.ConcatBytes` | src/pipeline/plugins/screencast-capture.ts:442-450 | the loop copies the parts one behind the other into a new buffer |
| `Pipeline.FailedStartSilencesEndHooks` | src/pipeline/pipeline.ts:123-138 | after a start hook failed on a pipeline still open no end hook ever runs |
| `Pipeline.ClosedWhileStarting` | src/pipeline/pipeline.ts:319-343 | a pipeline closed during its start has invoked an end hook, if there is one |
| `Pipeline.EndedGrowsInRun` | src/pipeline/pipeline.ts:335-344 | an end hook once invoked stays so: the list only grows |
| `Pipeline.StepKeeps` | src/pipeline/pipeline.ts:85-344 | every event keeps the id bounds and the shutdown order |
| `Pipeline.IdsKept` | src/pipeline/id-space.ts:14-59 | internal ids lie in [2^30, next), each pending or settled once |
| `Pipeline.EndKept` | src/pipeline/pipeline.ts:319-344 | how far the shutdown has come is exactly which hooks were invoked |
| `Pipeline.ClientStaysSafe` | src/pipeline/pipeline.ts:252-317 | no single event sends an internal id to the client |
| `ProfileLimits.MergedLookup` | src/core/profile/save.ts:46-49 | an origin has the captured data if captured, else the loaded data |
| `ProfileLimits.LastVictimNeeded` | src/core/profile/limits.ts:64-70 | minimality of the loop from any storage |
| `ProfileLimits.TrimFailsIff` | src/core/profile/limits.ts:64-72 | when the loop ends over the cap |
| `ProfileLimits.CountCap` | src/core/profile/limits.ts:45-59 | the count cap keeps the most recently visited |
| `ProfileLimits.PickOldestOrigin` | src/core/profile/limits.ts:96-103 | the first origin with the smallest visit time |
| `ProfileLimits.EnforceCount` | src/core/profile/limits.ts:45-59 | kept entries in order, the others named as evicted |
| `ProfileLimits.TrimToCap` | src/core/profile/limits.ts:62-70 | the loop evicts the oldest until the size fits; it terminates |
| `ProfileLimits.EnforceProfileLimits` | src/core/profile/limits.ts:34-90 | the whole result record |
| `ProfileLimits.MergeAndPrepareProfile` | src/core/profile/save.ts:41-80 | preserved on an empty capture, refused, or saved |
| `Blob.HeaderRoundTrip` | src/core/profile/blob.ts:67-103 | header decoding inverts the layout |
| `Blob.LittleEndianRoundTrip` | src/core/profile/blob.ts:60 | the additional data's length reads back, below 2^32 |
| `Blob.LittleEndianUnique` | src/core/profile/blob.ts:92 | each four bytes encode one length |
| `Blob.EncodeBlob` | src/core/profile/blob.ts:34-65 | each error exactly in its case, else the laid out blob |
| `Blob.WriteHeader` | src/core/profile/blob.ts:52-61 | filling the zeroed buffer field by field gives the 44 header bytes |
| `Buffers.CopyInto` | src/core/profile/blob.ts:53-59 | copies at an offset and leaves the rest; also the set of src/pipeline/plugins/screencast-capture.ts |
| `HelperPool.RunKeeps` | src/core/profile/helper-pool.ts:181-196 | in every interleaving an origin is ahead of the cursor, in one worker's hands, or reported the due number of times |
| `Keys.ModifiersMeaning` | src/agent-tools/keys.ts:155-161 | each modifier part once |
| `Keys.PlainKeysMeaning` | src/agent-tools/keys.ts:155-164 | which parts are the key |
| `Keys.MaskTracksSet` | src/agent-tools/keys.ts:184-189 | setting, clearing and testing a modifier bit is adding, removing and looking up the key |
| `Keys.ParseChord` | src/agent-tools/keys.ts:150-166 | the loop computes the parsed chord or the error |
| `Keys.SplitChord` | src/agent-tools/keys.ts:168-182 | the loop regroups the pieces |
| `Keys.ModifierMaskOf` | src/agent-tools/keys.ts:184-189 | the loop computes the mask of a set of modifiers |
| `Input.MoveAgrees` | src/agent-tools/input.ts:72-77 | mouseMove agrees from every state, masks exact |
| `Input.ScrollAgrees` | src/agent-tools/input.ts:133-143 | wheelAt agrees from every state, mask exact |
| `Input.ButtonWords` | src/agent-tools/input.ts:6 | or, and-not and test on masks are those on the numbers 1, 2, 4 |
| `Keys.ModifierWords` | src/agent-tools/keys.ts:9 | or, and-not and test on masks are those on the numbers 1, 2, 4, 8 |
| `Input.ChordReplay` | src/agent-tools/input.ts:191-218 | a chord takes its key off what was down and changes nothing else |
| `Input.PressAgrees` | src/agent-tools/input.ts:79-93 | mouseDown agrees from every state, masks exact |
| `Input.ReleaseAgrees` | src/agent-tools/input.ts:95-111 | mouseUp agrees from every state, masks exact |
| `Input.DragAgrees` | src/agent-tools/input.ts:114-131 | a drag agrees from every state, for any number of steps, masks exact |
| `Input.HoldAgrees` | src/agent-tools/input.ts:233-238 | keyDown agrees, repeated or not |
| `Input.FreeAgrees` | src/agent-tools/input.ts:240-244 | keyUp agrees, held or not |
| `Input.ButtonMaskTracksSet` | src/agent-tools/input.ts:6 | setting, clearing and testing a button bit is adding, removing and looking up the button |
| `Input.PressModifiers` | src/agent-tools/input.ts:201-209 | the first loop: modifiers not down already, in order, with growing masks |
| `Input.ReleaseModifiers` | src/agent-tools/input.ts:213-216 | the last loop: reverse order, with shrinking masks |
| `Selector.AvailableOrder` | src/core/router/selector.ts:68-75 | what the filter admits is in that order too |
| `Selector.FallbacksInPriorityOrder` | src/core/router/selector.ts:91-148 | round-robin and weighted answers keep all but the leader in that order |
| `Selector.CandidateRecord` | src/core/router/selector.ts:57-81 | a candidate is the registered record, but for a passed deadline |
| `PoolPages.LateRelease` | src/core/pool/session-pool.ts:188-189 | once the session has left the map a finished release changes no session |
| `PoolPages.OpenedOnLeaver` | src/core/pool/session-pool.ts:143-176 | a page opened on a session that has left the map is handed out, and no session changes |
| `PoolPages.ScaleUpIff` | src/core/pool/session-pool.ts:329-357 | a request starts a session exactly if none is being created, fewer than maxSessions are active or starting, and fewer than 3 slots, or than three tenths of a session's, are free |
| `PoolPages.SlotsMeaning` | src/core/pool/session-pool.ts:338-344 | free slots are what all active sessions offer less the pages they have |
| `PoolPages.FirstOfTheLeast` | src/core/pool/session-pool.ts:432-445 | the session found is the first of the open ones with the fewest pages, and one is found exactly if any is open |
| `PoolPages.BeginMeaning` | src/core/pool/session-pool.ts:95-124 | the head of the line takes the least loaded open session; else waits for the one being created; else creates one below maxSessions; else queues |
| `PoolPages.PollMeaning` | src/core/pool/session-pool.ts:100-124 | twenty looks, then as before |
| `PoolPages.ResumeMeaning` | src/core/pool/session-pool.ts:118-128 | a waiter told of room takes the least loaded open session if there still is one; else the acquisition fails |
| `PoolPages.WakeMeaning` | src/core/pool/session-pool.ts:543-566 | a waiter hears of room only while a session has some, and of none exactly by its own timer |
| `PoolPages.OpeningHasRoom` | src/core/pool/session-pool.ts:95-177 | over every run the session a page is being opened on is in the map, or kept aside after it left, with room for the page |
| `PoolPages.ConnectMeaning` | src/core/pool/session-pool.ts:384-430 | a browser that connects makes its session active, one that does not takes it out; the acquisition that created it is told |
| `PoolPages.DisconnectMeaning` | src/core/pool/session-pool.ts:389-406 | a browser that disconnects takes exactly its own session and handles with it |
| `PoolPages.OneShotMeaning` | src/core/pool/session-pool.ts:212-268 | a one-shot page is a live handle under a new name, of no session of the pool |
| `Recording.TargetsAreArmings` | src/pipeline/plugins/screencast-capture.ts:205-263 | what is kept of a target, last hash and url included, is its history since it was attached |
| `Recording.StopMeaning` | src/pipeline/plugins/screencast-capture.ts:144-175 | capture has stopped exactly if an abort or a frame at the cap came, and the first reason stands |
| `Recording.ManifestCounts` | src/pipeline/plugins/screencast-capture.ts:239-254 | the manifest reports the counters and the reason of the moment the session ended |
| `Recording.EndMeaning` | src/pipeline/plugins/screencast-capture.ts:228-254 | it is ending exactly if the session has ended, and there is a manifest exactly once that was due with nothing in flight |
| `Recording.ManifestInOrder` | src/pipeline/plugins/screencast-capture.ts:239-254 | and lists its frames in the order they were recorded |
| `Recording.WritesMeaning` | src/pipeline/plugins/screencast-capture.ts:404-424 | writes in flight and failed chunks are those of the events |
| `Recording.OtherEventsCountNothing` | src/pipeline/plugins/screencast-capture.ts:301-354 | no other event counts or captures anything |
| `Fnv.XorBits` | src/pipeline/plugins/screencast-capture.ts:436 | the exclusive or, bit by bit |
| `Requests.TicketsOfRun` | src/core/gateway.ts:181-232 | every ticket was issued by exactly one request of the run |
| `Requests.WaitersAreRequests` | src/core/gateway.ts:211-232 | whoever waits does so with the target, profile and time of that request |
| `Requests.TimerMeaning` | src/core/gateway.ts:216-222 | a timer refuses its own waiter and nobody else |
| `Requests.ShutdownMeaning` | src/core/gateway.ts:265-284 | a shutdown refuses everybody who waits, in order |
| `Requests.AverageMeaning` | src/core/gateway.ts:144-153 | the average over any run of latencies: the first counts whole, every later one three tenths, fading by seven tenths |
| `Requests.AverageWithin` | src/core/gateway.ts:144-153 | it stays within the latencies measured |
| `Traffic.ReplyMeaning` | src/pipeline/pipeline.ts:279-283 | the reply that carries a pending id settles exactly that call |
| `Traffic.HandedOutForEver` | src/pipeline/id-space.ts:14-59 | an id once handed out stays pending or settled |
| `Traffic.OthersSendNothing` | src/pipeline/pipeline.ts:210-317 | only internal calls and the client put anything on the upstream socket |
| `Traffic.RejectMeaning` | src/pipeline/id-space.ts:46-59 | a rejection fails every pending call, in order |
| `Traffic.EitherWay` | src/pipeline/pipeline.ts:233-249 | every message takes exactly such a way through the hooks |
| `Traffic.ResponseMeaning` | src/pipeline/pipeline.ts:279-298 | an upstream response reaches the client as the response hooks leave it |
| `Traffic.ForwardMeaning` | src/pipeline/pipeline.ts:252-317 | everything else reaches a client that keeps up just as it came, but events a plugin drops |
| `Traffic.AttachMeaning` | src/pipeline/pipeline.ts:160-172 | a client is attached only while started and open |
| `Traffic.NothingYet` | src/pipeline/pipeline.ts:74-92 | a new pipeline has nobody attached, nothing sent or pending, and starts its ids at 2^30 |
| `Traffic.FinishMeaning` | src/pipeline/pipeline.ts:319-344 | the end is reached exactly by the cleanup after the last end hook, once |
| `Traffic.StartMeaning` | src/pipeline/pipeline.ts:120-155 | when starting is done, fails, or closes the pipeline |
| `Cooldown.TripsIff` | src/core/tracking/cooldown.ts:33-40 | the trip decision on the two counts, for every threshold |
| `Cooldown.WindowsAreCounts` | src/core/tracking/cooldown.ts:71-86 | the windows hold as many entries as the run had events in them |
| `Cooldown.SuccessMeaning` | src/core/tracking/cooldown.ts:46-69 | a success is counted; it and a query clear a deadline that has passed |
| `Slots.AcquireMeaning` | src/core/tracking/concurrency.ts:8-18 | an enabled provider below its ceiling always accepts, tracks the session under its name and time, and counts one more; else nothing changes |
| `Slots.FullMeaning` | src/core/providers/effective.ts:44-55 | what refuses a slot is exactly what routing calls not free: a ceiling, not zero, that is reached |
| `Slots.ReleaseMeaning` | src/core/tracking/concurrency.ts:20-26 | a tracked session is forgotten and one slot freed; nothing otherwise |
| `Slots.SweepMeaning` | src/core/tracking/concurrency.ts:36-52 | exactly the sessions no older than the limit survive; each enabled provider has as many slots freed as sessions of its own went |
| `Slots.RegisterMeaning` | src/core/providers/registry.ts:41-48 | a new record in the enabled map; removing leaves none in either |
| `Slots.DisableMeaning` | src/core/providers/registry.ts:54-61 | the record, or a new one, is in the disabled map with the new configuration, and nowhere else |
| `Slots.EnableMeaning` | src/core/providers/registry.ts:64-77 | the record, or a new one, is in the enabled map with the new configuration, and nowhere else |
| `Slots.ApplyMeaning` | src/core/gateway.ts:128-134 | a configuration moves the record to where it says |
| `Slots.RemoveMeaning` | src/server/app.ts:692-698 | a provider is taken out exactly if no slot of it is taken |
| `ProfileLimits.WarnMeaning` | src/core/profile/limits.ts:72-90 | the limits warn exactly if they refuse or leave more than the soft limit |
| `ProfileLimits.RefusedMergeMeaning` | src/core/profile/save.ts:41-80 | without empty origins a capture is refused exactly if the profile is too long with all origins removed |
| `ProfileLimits.CountCapKeeps` | src/core/profile/limits.ts:45-59 | the count cap keeps min(number, maxOrigins) origins |
| `ProfileLimits.VictimsOldestFirst` | src/core/profile/limits.ts:64-70 | the loop lets the oldest go first |
| `ProfileLimits.SizeMeaning` | src/core/profile/limits.ts:92-94 | the size is that of the text: what is there without origins and the entries with commas between |
| `Blob.HeaderMeaning` | src/core/profile/blob.ts:67-103 | each header error exactly if its check is the first to fail |
| `Blob.RefusedHeader` | src/core/profile/blob.ts:105-106 | a refused header refuses the blob |
| `Blob.EncodeMeaning` | src/core/profile/blob.ts:34-65 | the body sealed under key, iv and profile id, zipped exactly if asked, and the version and compression that say so |
| `HelperPool.WorkerMeaning` | src/core/profile/helper-pool.ts:181-196 | a worker takes the next origin unless none is left or the run was aborted |
| `Gestures.ClickMeaning` | src/agent-tools/input.ts:52-70 | one move, then one, two or three presses and releases of the button there, numbered from one |
| `Gestures.DragMeaning` | src/agent-tools/input.ts:114-131 | pressed where it starts, moved by equal steps, arriving exactly at the target, and let go there |
| `Gestures.ChordStrikes` | src/agent-tools/input.ts:191-218 | the key is struck as often as asked, at least once and at most a hundred times |
| `Gestures.ModifiersInOrder` | src/agent-tools/keys.ts:155-161 | the modifiers of a chord are those named, in the order they are named |
| `Gestures.PressedInOrder` | src/agent-tools/input.ts:201-209 | they are pressed in that order, but for those already down |
| `Gestures.PointerMeaning` | src/agent-tools/input.ts:72-143 | where moves, wheel, presses and releases happen, and with which distances or button |
| `Gestures.HoldMeaning` | src/agent-tools/input.ts:233-244 | one event exactly if what is held changes |
| `Gestures.HeldButtonMeaning` | src/agent-tools/input.ts:26-31 | a move names a held button exactly if there is one |
| `Cooldown.CooldownTracker.GetWindow` | src/core/tracking/cooldown.ts:71-86 | returns and stores exactly the entries of the last 60 s |
| `Cooldown.CooldownTracker.RecordFailure` | src/core/tracking/cooldown.ts:20-44 | the new lists, counters and deadline, for the tracker and the provider |
| `Cooldown.CooldownTracker.TripIfDue` | src/core/tracking/cooldown.ts:33-43 | the deadline is set exactly when there are enough requests and the failure rate reaches the threshold |
| `Cooldown.CooldownTracker.RecordSuccess` | src/core/tracking/cooldown.ts:46-57 | the new lists and the provider record |
| `Cooldown.CooldownTracker.IsInCooldown` | src/core/tracking/cooldown.ts:59-69 | answers whether the deadline is ahead, and clears a deadline that has passed |
| `Registry.ProviderRegistry.Register` | src/core/providers/registry.ts:41-48 | a fresh record in the enabled map, gone from the disabled one |
| `Registry.ProviderRegistry.Disable` | src/core/providers/registry.ts:54-61 | the record moves to the disabled map with the new configuration |
| `Registry.ProviderRegistry.Enable` | src/core/providers/registry.ts:64-77 | an enabled record takes the new configuration, a disabled one moves back with its state, an unknown id is registered |
| `Registry.ProviderRegistry.Remove` | src/core/providers/registry.ts:197-202 | gone from both maps; reports whether it was there |
| `Registry.ProviderRegistry.Get` | src/core/providers/registry.ts:183-185 | finds enabled providers only |
| `Registry.ProviderRegistry.GetIncludingDisabled` | src/core/providers/registry.ts:80-82 | finds enabled providers first, then disabled ones |
| `Selector.ProviderSelector.GetCandidates` | src/core/router/selector.ts:57-81 | answer, stored records and selector memory are those of the selection function |
| `Selector.ProviderSelector.Pinned` | src/core/router/selector.ts:59-66 | the pinned branch, with the cooldown cleared on the way stored back |
| `Selector.ProviderSelector.Filter` | src/core/router/selector.ts:68-75 | the admitted providers in priority order; every enabled record is refreshed |
| `Selector.ProviderSelector.Check` | src/core/router/selector.ts:62-74 | cooldown, free slot and profile, in this order |
| `Selector.ProviderSelector.ApplyStrategy` | src/core/router/selector.ts:83-118 | the order and the new round-robin index or weights |
| `Selector.ProviderSelector.SmoothWeightedRoundRobin` | src/core/router/selector.ts:122-148 | new weights and the leader first, the others in order |
| `Selector.ProviderSelector.AddWeights` | src/core/router/selector.ts:123-129 | every candidate receives its weight; the total is returned |
| `Selector.ProviderSelector.PickHighest` | src/core/router/selector.ts:131-141 | the loop finds the first candidate with the highest weight |
| `Concurrency.ConcurrencyTracker.Acquire` | src/core/tracking/concurrency.ts:8-18 | accepts exactly below the ceiling; then the session is tracked and the count is one up |
| `Concurrency.ConcurrencyTracker.Release` | src/core/tracking/concurrency.ts:20-26 | untracks the session; the count goes down, not below zero, only if it was tracked |
| `Concurrency.ConcurrencyTracker.GetActive` | src/core/tracking/concurrency.ts:28-34 | the number of tracked sessions of one provider |
| `Concurrency.ConcurrencyTracker.Reconcile` | src/core/tracking/concurrency.ts:36-52 | exactly the sessions over age are swept; each enabled provider gets back as many slots as sessions of its own were swept |
| `Concurrency.ConcurrencyTracker.SweepSession` | src/core/tracking/concurrency.ts:42-48 | one sweep: the session is gone, its provider one slot freer if enabled |
| `Gateway.Gateway.AcquireSlot` | src/core/gateway.ts:121-125 | a step of the slot ledger; refused for an unknown or full provider |
| `Gateway.Gateway.ApplyProviderConfig` | src/core/gateway.ts:128-134 | a step of the slot ledger |
| `Gateway.Gateway.ReleaseSlot` | src/core/gateway.ts:136-142 | the ledger step, then one waiter is woken on the resulting providers |
| `Gateway.Gateway.RecordSuccess` | src/core/gateway.ts:144-153 | cooldown lists, provider record and the moving average of an enabled provider |
| `Gateway.Gateway.RecordFailure` | src/core/gateway.ts:155-177 | cooldown lists and provider record of an enabled provider |
| `Gateway.Gateway.WaitForSlot` | src/core/gateway.ts:181-232 | the immediate answers and the queued ticket, tied to the queue step on the old providers |
| `Gateway.Gateway.WorthQueueing` | src/core/gateway.ts:191-205 | the two early exits |
| `Gateway.Gateway.DequeueNext` | src/core/gateway.ts:234-263 | the loop over the queue, each look through the selector, ends in the queue step on the providers it started with |
| `Gateway.Gateway.QueueTimeout` | src/core/gateway.ts:216-222 | the timer answers its ticket with false if it still waits |
| `Gateway.Gateway.BeginShutdown` | src/core/gateway.ts:275-284 | shutdown drains once |
| `Gateway.Gateway.DrainQueue` | src/core/gateway.ts:265-271 | every waiter is refused in order |
| `Gateway.Gateway.ReconcileTick` | src/core/gateway.ts:338-350 | the sweep sees enabled providers only |
| `SessionPool.SessionPool.Start` | src/core/pool/session-pool.ts:46-65 | every warm-up session is created before the first await |
| `SessionPool.SessionPool.FindAvailableSession` | src/core/pool/session-pool.ts:432-445 | the loop finds that session |
| `SessionPool.SessionPool.CountSessionsByState` | src/core/pool/session-pool.ts:568-574 | counts the sessions of a state |
| `SessionPool.SessionPool.CountAvailableSlots` | src/core/pool/session-pool.ts:338-344 | free page slots over active sessions |
| `SessionPool.SessionPool.CreateSession` | src/core/pool/session-pool.ts:361-382 | the synchronous part: a starting session under a fresh id |
| `SessionPool.SessionPool.EnsureCapacity` | src/core/pool/session-pool.ts:329-357 | creates a session exactly when none is being created, capacity allows and free slots are below the threshold |
| `SessionPool.SessionPool.AcquirePage` | src/core/pool/session-pool.ts:74-93 | scales up and joins the line of acquisitions |
| `SessionPool.SessionPool.DoAcquirePage` | src/core/pool/session-pool.ts:95-124 | the first look: take a session, poll, create or wait |
| `SessionPool.SessionPool.Poll` | src/core/pool/session-pool.ts:100-106 | one of at most twenty looks |
| `SessionPool.SessionPool.CreateOrWaitForSlot` | src/core/pool/session-pool.ts:108-124 | create below maxSessions, else queue |
| `SessionPool.SessionPool.ResumeAcquisition` | src/core/pool/session-pool.ts:113-128 | after a created session or an answered wait: take a session or fail |
| `SessionPool.SessionPool.FinishAcquisition` | src/core/pool/session-pool.ts:143-176 | the page is counted, the handle handed out, the session retired if due, capacity ensured |
| `SessionPool.SessionPool.AbandonAcquisition` | src/core/pool/session-pool.ts:135-141 | a page that does not open ends the acquisition |
| `SessionPool.SessionPool.RetireSession` | src/core/pool/session-pool.ts:447-463 | only an active session retires; without pages it closes |
| `SessionPool.SessionPool.CloseSession` | src/core/pool/session-pool.ts:465-473 | the session leaves the map |
| `SessionPool.SessionPool.OnConnected` | src/core/pool/session-pool.ts:408-419 | a starting session turns active and a waiter is woken |
| `SessionPool.SessionPool.OnConnectFailed` | src/core/pool/session-pool.ts:420-429 | the session leaves the map |
| `SessionPool.SessionPool.OnDisconnected` | src/core/pool/session-pool.ts:389-406 | the session and its handles go, a waiter is woken if another session has room |
| `SessionPool.SessionPool.ReleasePage` | src/core/pool/session-pool.ts:179-187 | the handle goes at once |
| `SessionPool.SessionPool.FinishRelease` | src/core/pool/session-pool.ts:189-209 | whichever context closed: the page is given back, a drained retiring session closes |
| `SessionPool.SessionPool.OnBrowserClosed` | src/core/pool/session-pool.ts:471-479 | a waiter is woken after the close |
| `SessionPool.SessionPool.OnSlotTimer` | src/core/pool/session-pool.ts:545-549 | the waiter times out |
| `SessionPool.SessionPool.DequeueNext` | src/core/pool/session-pool.ts:555-566 | the first waiter is woken exactly if some session has room |
| `SessionPool.SessionPool.MaintainSession` | src/core/pool/session-pool.ts:495-526 | lifetime, idle and drained sessions |
| `SessionPool.SessionPool.RunMaintenance` | src/core/pool/session-pool.ts:490-541 | the sessions first, then handles held too long |
| `Replay.ScreencastCapture.StopCapture` | src/pipeline/plugins/screencast-capture.ts:166-175 | the first reason stands |
| `Replay.ScreencastCapture.FlushChunk` | src/pipeline/plugins/screencast-capture.ts:404-424 | the buffer becomes one written chunk; nothing for an empty one |
| `Replay.ScreencastCapture.AppendFrameToBuffer` | src/pipeline/plugins/screencast-capture.ts:356-402 | rolls over by size or age, then packs |
| `Replay.ScreencastCapture.Pack` | src/pipeline/plugins/screencast-capture.ts:376-401 | prefix and bytes go behind, with their record |
| `Replay.ScreencastCapture.JudgeFrame` | src/pipeline/plugins/screencast-capture.ts:301-349 | cap, empty url, writes in flight and duplicate, in this order |
| `Replay.ScreencastCapture.HandleScreencastFrame` | src/pipeline/plugins/screencast-capture.ts:301-354 | one frame is recorded, dropped, skipped, or trips the cap |
| `Replay.ScreencastCapture.OnWriteSettled` | src/pipeline/plugins/screencast-capture.ts:408-419 | a settled write leaves flight, a failed one is noted |
| `Replay.ScreencastCapture.OnSessionEnd` | src/pipeline/plugins/screencast-capture.ts:228-237 | ending, with a last flush |
| `Replay.ScreencastCapture.WriteManifest` | src/pipeline/plugins/screencast-capture.ts:239-254 | the surviving frames and the sum of their lengths |
| `Replay.ScreencastCapture.ArmTarget` | src/pipeline/plugins/screencast-capture.ts:257-263 | a target is armed once |
| `Replay.ScreencastCapture.DisarmTarget` | src/pipeline/plugins/screencast-capture.ts:205-209 | a detached target is forgotten |
| `Replay.ScreencastCapture.OnNavigated` | src/pipeline/plugins/screencast-capture.ts:211-220 | the last url of a top frame |
| `Replay.ScreencastCapture.OnAbort` | src/pipeline/plugins/screencast-capture.ts:144-155 | the stop signal |
| `Pipeline.InternalIdSpace.Allocate` | src/pipeline/id-space.ts:19-25 | a fresh id, pending |
| `Pipeline.InternalIdSpace.Settle` | src/pipeline/id-space.ts:41-51 | settles a pending id, reports whether it was |
| `Pipeline.InternalIdSpace.RejectAll` | src/pipeline/id-space.ts:54-59 | everything pending is rejected in order |
| `Pipeline.Pipeline.SendInternal` | src/pipeline/pipeline.ts:91-101 | allocates and sends; a send that throws settles at once |
| `Pipeline.Pipeline.SendInternalOneWay` | src/pipeline/pipeline.ts:102-112 | settled before it is sent |
| `Pipeline.Pipeline.BeginStart` | src/pipeline/pipeline.ts:123-126 | starts once |
| `Pipeline.Pipeline.OnStartHook` | src/pipeline/pipeline.ts:143-148 | the next hook, ready, or failed because closed meanwhile |
| `Pipeline.Pipeline.OnStartHookFailed` | src/pipeline/pipeline.ts:132-138 | closes and rejects |
| `Pipeline.Pipeline.AttachClient` | src/pipeline/pipeline.ts:160-171 | takes a client on any started pipeline that is not closed |
| `Pipeline.Pipeline.OnUpstreamMessage` | src/pipeline/pipeline.ts:252-317 | one frame: forwarded, dropped, swallowed or settling |
| `Pipeline.Pipeline.ApplyResponseHooks` | src/pipeline/pipeline.ts:286-295 | each hook sees what the one before made of the message |
| `Pipeline.Pipeline.OnClientMessage` | src/pipeline/pipeline.ts:210-250 | one frame: forwarded, rewritten or dropped |
| `Pipeline.Pipeline.FinalizeOnce` | src/pipeline/pipeline.ts:319-333 | closes once and invokes the last end hook |
| `Pipeline.Pipeline.NextEndHook` | src/pipeline/pipeline.ts:335-343 | the next plugin down that has an end hook |
| `Pipeline.Pipeline.OnEndHookSettled` | src/pipeline/pipeline.ts:336-343 | settled or timed out, the next follows |
| `Pipeline.Pipeline.FinishEnd` | src/pipeline/pipeline.ts:324-332 | what is pending is rejected |
| `HelperPool.HelperPool.TakeNext` | src/core/profile/helper-pool.ts:185-188 | abort check, cursor, end |
| `HelperPool.HelperPool.SettleWork` | src/core/profile/helper-pool.ts:189-194 | success and error reports |
| `Input.InputState.Modifiers` | src/agent-tools/input.ts:19-23 | the getter's loop computes the mask of the held keys |
| `Input.InputState.ClickAt` | src/agent-tools/input.ts:52-70 | a move, then one to three press and release pairs; the button bit stays as it was |
| `Input.InputState.MouseMove` | src/agent-tools/input.ts:72-77 | one event with the held button and the masks |
| `Input.InputState.MouseDown` | src/agent-tools/input.ts:79-93 | a move and a press; the button bit is set |
| `Input.InputState.MouseUp` | src/agent-tools/input.ts:95-111 | a move unless the pointer is there, and a release; the bit is cleared |
| `Input.InputState.DragTo` | src/agent-tools/input.ts:114-131 | press, the points between, release |
| `Input.InputState.WheelAt` | src/agent-tools/input.ts:133-143 | one wheel event; the pointer moves |
| `Input.InputState.PressChord` | src/agent-tools/input.ts:191-218 | the parse error, or the events; the state stays |
| `Input.InputState.KeyDownOn` | src/agent-tools/input.ts:233-238 | nothing for a held key; else it is held from then on, and the mask counts it |
| `Input.InputState.KeyUpOn` | src/agent-tools/input.ts:240-244 | nothing for a free key; else it is free from then on, and the mask leaves it out |
| `Input.InputState.LetGo` | src/agent-tools/input.ts:248-253 | buttons in order, then keys in reverse |

## Left out

- Shared references: a provider or pool session record is a value that is stored back under its id,
  where the program changes one object that several maps and callers refer to. What a stale
  reference to a removed provider sees is not captured.
- Liveness: nothing says that a queued request is ever woken. A woken waiter reserves no slot, and
  an expiring cooldown wakes nobody.
- Sockets, HTTP, files, logging, emitted events, counters and activity timestamps; timers are steps
  that may happen at any moment.
- Floating point: latencies, rates and drag positions are exact reals.
- Integers are unbounded; ids and counters past 2^53 are not modelled. `Fnv` does model 32-bit wrap-around.
- Capability probing and provider health: a probe appears only as a change of fields that slot
  counting does not own. The detected kind of a provider is any boolean.
- The pool after `shutdown()` has begun, and the browser side of one-shot pages.
- What a session's page count is after a handle was released twice: `PoolPages.PagesAreHandles` speaks
  of runs without second releases, and `PoolPages.ReleaseKeepsTallyIff` says that only those break it.
- JSON text: in the pipeline a message is its parsed record. In the profile limits the serialized
  size is a base plus, per origin, its entry, with a comma between entries.
- Visit times that do not parse: a visit time is a number, zero if absent.
- Encryption, compression and text encoding: functions of which only the inverse laws are known.
  That encoding text can be undone excludes ids with unpaired surrogates. Compression bombs and
  authentication failures are only the error branch.
- The fields of a frame record that come from page metadata, and the commands sent to arm a target.
- `forwardClientCommand`, and plugin hooks that send or close while a message is being handled: such
  calls are steps of their own, before or after that message.
- Key names and their aliases: a key is its canonical name. The text and the editing commands a key
  stroke carries, and `pressSequence`, are not modelled.
- Input gestures whose events fail to send midway, and two gestures on one tab at the same time.
- Proxy checks, cookies, redaction, reconnect and session maps, page scripts, tool dispatch, the
  command line and the dashboard: they would add easy members only.

# Verification of the AF core's state machines

A Dafny model of the stateful parts of phine.af, a 5G application function, with proofs of what its
own design relies on. Classes with map and sequence fields stand for the C++ objects that are
updated in place; each method is proved against a function on values, and the theorems are about
those functions and about whole runs of them. `dafny verify dfyconfig.toml` checks everything.

| files | what they model |
|---|---|
| `UeKeys`, `Ipv4`, `UeStates`, `NameIndices`, `UeStores`, `UeCoherence`, `UeRuns`, `UeContents`, `UeLocks`, `UeStateManager` | the UE store: identities, promotion and demotion, five secondary indices, its lock |
| `Notifications`, `NotificationSafety`, `NotificationOutcomes`, `NotificationDrain`, `LockOrder`, `Backoff`, `QodNotificationManager` | the notification pipeline as interleaved steps of its threads, its locks, its retry delays |
| `QodStore`, `QodSessions`, `QodContents`, `QodSessionManager` | QoD sessions: store, SUPI index, PCF mapping, lifecycle |
| `FlowDescriptions`, `PccRules`, `BitRates`, `Decimal` | the texts sent to the PCF and their way back |
| `BundledRuntime`, `BundledAfRuntime` | start and shutdown of the bundled process as interleaved steps |
| `Subscriptions`, `SubscriptionContents`, `SubscriptionManager` | event subscriptions and their collector |

How the pieces fit: `Coherent` says that each index equals the map a scan of all states collects. It
is not an invariant of the code for all arguments, so for each operation the exact guard is proved
(`...CoherentIff`), `StepSoundIff` puts the guards together and `RunSoundIff` lifts them to runs. The `...Contents` modules say field by field what each call leaves behind.
`Notifications.Step`, `BundledRuntime.Step` and `LockOrder.Move` are the atomic steps of the
concurrent parts; a run is any sequence of enabled steps. Times are whole seconds and the clock,
random ids, PCF answers and HTTP results are inputs of the steps.

## What the code does that one might not expect

- Lookup by GPSI finds an entry in the index and then asks the store for the raw key instead of the
  key the index gives (`GpsiLookupIff`); promotion therefore hides a UE from it
  (`PromotionHidesGpsi`). It locks the manager twice for reading, which can block when a writer comes
  in between (`StuckWithWriterIff`).
- Lookup by IPv4, IPv6 or prefix holds the lock exclusively when it asks again, so it blocks on
  itself whenever the address is indexed; promotion onto a taken SUPI key does the same
  (`StuckAloneIff`).
- Merging a UE with itself erases it and indexes it through a reference to the erased state
  (`MergeAlwaysCoherentIff`).
- Same-key promotion and provisioning of an existing UE do not refresh the indices
  (`PromoteSameKeyIff`, `OverlayCoherentIff`).
- Removing or replacing a PDU session forgets an address that another session of the same UE still
  has (`DropSessionCoherentIff`, `PutSessionCoherentIff`).
- A final delivery failure is booked as one more pending notification; the failure counter never
  moves (`PendingIsOutstandingIff`).
- The retry delay is capped inside the loop only, so a first retry may wait longer than the maximum,
  and longer than the second (`CapRespectedIff`, `BackoffMonotoneIff`).
- The request handler says that extensions need the AVAILABLE state (qod_handler.cpp:313-318); the
  manager also lets REQUESTED through, reads a start time that is not set and writes the result back
  (`ExtendInvIff`, `InvStepIff`).
- A success answer of the PCF is taken whatever status the session has: one that comes after a failure
  or a deletion makes the session available again (`LateAnswer`, `RespondInvIff`).
- The parser of bandwidths does not look at the unit: "5 Mbps" is read as 5 kbit/s (`ParserMeansItIff`).
- Additional parameters of a PCC rule overwrite the reserved fields (`RoundTripIff`).
- A shutdown request from a thread that the runtime does not join can still be using the
  orchestrator when it is released (`AlwaysSafeIff`, `UseAfterRelease`).
- A string filter of a subscription never matches the string it was given (`FilterAdmitsItselfIff`).

## Model

| member | source | states |
|---|---|---|
| UeRuns.RunSoundIff | af_core/src/ue_state_manager.cpp:18-828 | a run of updates, provisionings, promotions, merges, removals, GPSI changes, PDU session changes, identifier removals and cleanups keeps all five indices equal to a scan, and every stored identity consistent, after every call exactly when each call met its own guard (for runs whose calls all return) |
| UeRuns.StepSoundIff | af_core/src/ue_state_manager.cpp:18-828 | one call keeps a sound store sound if and only if its guard, read off the store before the call, holds; a merge of two different UEs, removal, identifier removal and cleanup need none |
| UeRuns.AfterAnySafeRun | af_core/src/ue_state_manager.cpp:233-244 | after any guarded run from the empty store, every index is the scan of the stored states, no name has two owners, and lookup by SUPI finds what a scan finds |
| UeRuns.ResolvedForGood | af_core/include/models/ue_state.h:680-695 | a resolved UE stays stored under its SUPI key, resolved, through any guarded run that does not remove it, overwrite it or merge it away |
| UeRuns.StepKeepsResolvedIff | af_core/src/ue_state_manager.cpp:97-203 | apart from removal, overwrite and being merged away, a call loses a resolved identity if and only if it promotes that UE to another, unused SUPI |
| UeRuns.PromotionResolves | af_core/src/ue_state_manager.cpp:123-133 | a promotion to an unused SUPI key resolves the UE, keeps its sessions, frees the old key and leaves every other UE alone |
| UeRuns.MergeFrame | af_core/src/ue_state_manager.cpp:152-190 | a merge of two different UEs removes only the second key and changes only the first state |
| UeRuns.LookupIsScan | af_core/src/ue_state_manager.cpp:233-244 | in a sound store, lookup by SUPI returns a state exactly when a scan finds that state with that SUPI, and the entry leads to the SUPI key |
| UeRuns.GpsiLookupIff | af_core/src/ue_state_manager.cpp:246-253 | lookup by GPSI returns the UE that owns the GPSI exactly when that UE is stored under the raw GPSI key, because the lookup queries the raw key again; that it locks again is UeLocks' subject |
| UeRuns.PromotionHidesGpsi | af_core/src/ue_state_manager.cpp:97-133 | promoting a UE stored under its GPSI makes the GPSI lookup return nothing although the index still knows the GPSI |
| UeStores.CoherentIsScan | af_core/src/ue_state_manager.cpp:493-575 | coherence means that no name is shared between states and each index equals the map a scan collects |
| UeCoherence.UpdateCoherentIff | af_core/src/ue_state_manager.cpp:18-51 | a full-state update keeps the indices exact if and only if none of the new names belongs to another UE, even though the old names are erased without an owner check |
| UeCoherence.PutSessionCoherentIff | af_core/src/ue_state_manager.cpp:359-384 | adding or replacing a PDU session keeps the indices exact if and only if its addresses belong to no other UE and no erased address is still used by another session of the same UE |
| UeCoherence.DropSessionCoherentIff | af_core/src/ue_state_manager.cpp:386-410 | dropping a PDU session keeps the indices exact if and only if its addresses occur in no other session of that UE |
| UeCoherence.SetGpsiCoherentIff | af_core/src/ue_state_manager.cpp:311-327 | changing a GPSI keeps the indices exact if and only if the new GPSI belongs to no other UE |
| UeCoherence.MergeCoherent | af_core/src/ue_state_manager.cpp:136-191 | merging two different UEs always keeps the indices exact, also when session ids clash and the secondary record is dropped |
| UeCoherence.MergeAlwaysCoherentIff | af_core/src/ue_state_manager.cpp:136-191 | a merge keeps the indices exact whatever a dangling reference yields if and only if the two keys differ or name no stored UE |
| UeCoherence.MergeSelfCoherentIff | af_core/src/ue_state_manager.cpp:149-188 | a merge of a UE with itself keeps the indices exact if and only if the names read through the reference to the erased state are already indexed as they would be written |
| UeCoherence.RemoveCoherent | af_core/src/ue_state_manager.cpp:193-203 | removing a UE keeps the indices exact |
| UeCoherence.RemoveAllCoherent | af_core/src/ue_state_manager.cpp:807-828 | removing any set of UEs keeps the indices exact |
| UeCoherence.DropIdentifierSound | af_core/src/ue_state_manager.cpp:642-672 | removing a known identifier leaves all indices as they are and the store sound, even when the key is demoted |
| UeCoherence.OverlayCoherentIff | af_core/src/ue_state_manager.cpp:62-84 | provisioning an existing UE, which never touches the indices, keeps them exact if and only if the data brings no new GPSI, the session it puts last under an id brings no address the UE does not have, and no address of an overwritten session is lost |
| UeStates.PutPdusNames | af_core/include/models/ue_state.h:802-812 | after sessions are put over a list, its names are those of the sessions that are kept and those of the last one put under each id |
| UeStates.SameNamesIff | af_core/src/ue_state_manager.cpp:80-82 | the names stay the same exactly when none of the sessions put last is new in an address and no address of an overwritten one is lost |
| UeCoherence.OverlayWithoutSessions | af_core/src/ue_state_manager.cpp:62-84 | provisioning an existing UE with data that has no sessions is safe if and only if the data brings no new GPSI |
| UeCoherence.ProvisionNewSoundIff | af_core/src/ue_state_manager.cpp:85-95 | provisioning a new UE keeps the store sound if and only if the data is stored under its own key, is consistently identified and takes no other UE's name |
| UeCoherence.PromoteSameKeyIff | af_core/src/ue_state_manager.cpp:108-115 | same-key promotion, which refreshes no index, keeps the store sound if and only if the UE already had its SUPI |
| UeCoherence.PromoteMovesIff | af_core/src/ue_state_manager.cpp:123-133 | promotion to a new key keeps the store sound if and only if the state had no SUPI yet and its key holds no SUPI of its own |
| UeStates.MergeKeepsUnion | af_core/src/ue_state_manager.cpp:152-186 | the merged state has the union of session ids without new duplicates, the primary record winning a clash, and the union of known IPv4, IPv6 and GPSI identifiers; nothing else of the primary changes |
| UeStates.MergePdusFacts | af_core/src/ue_state_manager.cpp:168-184 | the primary's sessions stay in front, unchanged, and only sessions with new ids are appended |
| UeStates.AddAllKnownFacts | af_core/include/models/ue_state.h:703-727 | adding identifiers is a set union, adds no duplicate and touches one list only |
| NameIndices.SwapExactIff | af_core/src/ue_state_manager.cpp:539-575 | the exact condition under which erase-if-owned followed by insert leaves an index equal to the scan |
| NameIndices.MergeExact | af_core/src/ue_state_manager.cpp:516-537 | erasing the names of two owners and giving some of them to one keeps an index exact |
| NameIndices.ExactIsScan | af_core/src/ue_state_manager.cpp:493-537 | an index that holds each owner's names and nothing else is the scan, and the other way round |
| UeStateManagers.UeStateManager.UpdateUeState | af_core/src/ue_state_manager.cpp:18-51 | store and indices become those of the update operation |
| UeStateManagers.UeStateManager.CreateOrUpdateProvisional | af_core/src/ue_state_manager.cpp:53-95 | a new state is stored and indexed, an existing one overlaid without index changes |
| UeStateManagers.UeStateManager.PromoteToResolved | af_core/src/ue_state_manager.cpp:97-134 | outcome and whole store of a promotion: unknown key, rejected SUPI, same key, blocked on a taken SUPI key, promoted |
| UeStateManagers.UeStateManager.MergeUeStates | af_core/src/ue_state_manager.cpp:136-191 | whole store after a merge, and when it happens at all; a UE merged with itself is erased and whatever the dangling reference yields is indexed |
| UeStateManagers.UeStateManager.RemoveUeState | af_core/src/ue_state_manager.cpp:193-203 | whole store after a removal |
| UeStateManagers.UeStateManager.UpdateUeGpsi | af_core/src/ue_state_manager.cpp:311-327 | whole store after a GPSI change |
| UeStateManagers.UeStateManager.AddOrUpdatePduSession | af_core/src/ue_state_manager.cpp:359-384 | whole store after a session is put; the search finds the first session of that id |
| UeStateManagers.UeStateManager.RemovePduSession | af_core/src/ue_state_manager.cpp:386-410 | whole store after a session is dropped, and the event published exactly when the SUPI is known |
| UeStateManagers.UeStateManager.RemoveNonPrimaryIdentifier | af_core/src/ue_state_manager.cpp:642-672 | whole store after an identifier is removed |
| UeStateManagers.UeStateManager.CleanupExpiredProvisional | af_core/src/ue_state_manager.cpp:807-828 | removing the stale states one by one, in any order, equals removing them as a set |
| UeStateManagers.UeStateManager.CollectStale | af_core/src/ue_state_manager.cpp:812-819 | the collected keys are exactly the provisional states older than the limit |
| UeStateManagers.UeStateManager.GetBySupi | af_core/src/ue_state_manager.cpp:233-244 | follows the index; in a sound store it is the scan |
| UeStateManagers.UeStateManager.AddUeIndices | af_core/src/ue_state_manager.cpp:493-514 | the nested loops put exactly the names of the state under its own key |
| UeStateManagers.UeStateManager.RemoveUeIndices | af_core/src/ue_state_manager.cpp:516-537 | the nested loops erase exactly the names of the state, whoever owns them |
| UeStateManagers.UeStateManager.AddPduIndices | af_core/src/ue_state_manager.cpp:539-550 | puts exactly the addresses of one session |
| UeStateManagers.UeStateManager.RemovePduIndices | af_core/src/ue_state_manager.cpp:552-575 | erases exactly the addresses of one session that the key owns |
| UeStateManagers.MergeInto | af_core/src/ue_state_manager.cpp:152-186 | the merge loops compute the merged state |
| UeStateManagers.AddPdusAddsNames | af_core/src/ue_state_manager.cpp:504-513 | indexing session by session equals indexing all names at once |
| UeStateManagers.ErasePdusErasesNames | af_core/src/ue_state_manager.cpp:525-536 | erasing session by session equals erasing all names at once |
| UeKeys.PrimaryKeyInjective | af_core/src/models/ue_key.cpp:49-67 | primary key strings of single-identifier keys are equal exactly when kind and value are |
| UeKeys.DemotionKeepsPrimaryKeyIff | af_core/include/models/ue_state.h:282-286 | demotion to composite keeps the primary key string if and only if no identifier of higher priority is present |
| UeKeys.SingleDemotion | af_core/src/models/ue_key.cpp:69-78 | a single-identifier key prints the same before and after demotion |
| Ipv4.StrictIpv4Exact | af_core/src/models/ue_key.cpp:143-157 | the strings accepted as IPv4 keys are exactly the canonical printings of four bytes |
| Ipv4.StrictImpliesLenient | southbound/pcf_handler/src/helpers.cpp:45-49 | every accepted IPv4 key passes the southbound check |
| Ipv4.LenientOctetIsByte | southbound/pcf_handler/src/helpers.cpp:45-49 | a southbound octet is one to three digits below 256, leading zeros allowed |
| Ipv4.LenientIsWider | southbound/pcf_handler/src/helpers.cpp:45-49 | "01.2.3.4" passes the southbound check but is no IPv4 key |
| UeLocks.ReentersIff | af_core/src/ue_state_manager.cpp:97-281 | a call locks the manager again while holding its lock exactly when it promotes onto a taken SUPI key, or looks up a well-formed GPSI or address that is indexed |
| UeLocks.StuckAloneIff | af_core/src/ue_state_manager.cpp:117-281 | a call alone waits for itself for good exactly when it is such a promotion or such an address lookup; a GPSI lookup alone gets through |
| UeLocks.StuckWithWriterIff | af_core/src/ue_state_manager.cpp:223-281 | beside one thread that changes the store, and with a lock that lets waiting writers go first, a call may wait for good exactly when it locks again, GPSI lookups included |
| UeLocks.NoDeadlock | af_core/src/ue_state_manager.cpp:18-828 | any number of calls that do not lock again never block each other for good |
| UeLocks.NoRace | af_core/src/ue_state_manager.cpp:18-828 | while one thread is inside a call that changes the store, no other thread is inside any call |
| UeLocks.WorksInside | af_core/src/ue_state_manager.cpp:18-828 | every call works inside the lock, one that changes the store inside an exclusive lock |
| UeContents.DropIdentifierContents | af_core/include/models/ue_state.h:736-796 | removing an identifier takes its first occurrence off its own list, keeps the order of the rest and all other lists and fields, and demotes the key if and only if it was the last identifier of the key's own kind |
| UeContents.RemoveKnownExact | af_core/include/models/ue_state.h:740-789 | the same of the state alone |
| UeContents.WithoutCounts | af_core/include/models/ue_state.h:741-747 | what is left is the multiset of before minus one occurrence |
| UeContents.UpdateContents | af_core/src/ue_state_manager.cpp:18-35 | a full-state update stores the state as given and changes no other |
| UeContents.ProvisionContents | af_core/src/ue_state_manager.cpp:53-95 | a UE provisioned without data is provisional, created now, and knows nothing but its key; data for an existing one changes its GPSI and sessions only |
| UeContents.PutPdusIsLaidOver | af_core/include/models/ue_state.h:802-812 | stored sessions keep their places, the first of an id that comes again is replaced by the last one put under it, and what is new is appended |
| UeContents.PromoteContents | af_core/src/ue_state_manager.cpp:123-133 | promotion sets SUPI, resolution and key and keeps everything else the UE had |
| UeContents.PromoteRefused | af_core/src/ue_state_manager.cpp:97-121 | an unknown key, a malformed or taken SUPI, and a repeated promotion change nothing |
| UeContents.SetGpsiContents | af_core/src/ue_state_manager.cpp:311-327 | only the GPSI of that UE changes |
| UeContents.SessionContents | af_core/src/ue_state_manager.cpp:359-410 | putting replaces the first session of the id in its place or appends; dropping takes out the first of the id; everything else stays |
| UeContents.RemoveContents | af_core/src/ue_state_manager.cpp:193-203 | the UE goes and no other changes |
| UeContents.CleanupContents | af_core/src/ue_state_manager.cpp:807-828 | a state is kept, unchanged, if and only if it is not provisional or not older than the limit |
| UeContents.ProvisionedLives | af_core/src/ue_state_manager.cpp:812-819 | a UE provisioned without data survives a cleanup if and only if it is not older than the limit |
| UeKeys.SupiFormats | af_core/src/models/ue_key.cpp:87-113 | a SUPI is "imsi-" with one to fifteen digits or "nai-" with an at sign, and nothing else |
| UeKeys.GpsiFormats | af_core/src/models/ue_key.cpp:115-141 | a GPSI is a plus sign with one to fifteen digits, or two texts around the first at sign, neither of them empty |
| UeKeys.Ipv6Format | af_core/src/models/ue_key.cpp:159-178 | an IPv6 key value has a colon and, unless it ends in an IPv4 address, at most 39 characters |
| UeKeys.OneMoreGroup | af_core/src/models/ue_key.cpp:171-173 | a group of up to four hexadecimal digits and a colon in front of well-formed groups make one group more |
| UeKeys.Ipv6PrefixFormat | af_core/src/models/ue_key.cpp:180-211 | an IPv6 prefix is an IPv6 key value, a slash and a length of at most 128 |
| NotificationOutcomes.EveryOutcome | af_core/src/qod/qod_notification_manager.cpp:374-405 | in every run a finalised notification is a success if and only if one of its sends was answered with success, and then just one; a failure means that all max_retry_attempts + 1 sends were answered with failure; the callback is told the same |
| NotificationOutcomes.CountersAreTheSteps | af_core/src/qod/qod_notification_manager.cpp:376-380 | the counters of the model count the sends and the successful answers among the steps of the run |
| NotificationOutcomes.InOrderRun | af_core/src/qod/qod_notification_manager.cpp:264 | in every run the task queue holds the notifications accepted last, in the order of their acceptance, none of them sent yet |
| NotificationOutcomes.TakenInOrder | af_core/src/qod/qod_notification_manager.cpp:368-372 | new notifications are taken in the order of their acceptance |
| NotificationOutcomes.DiscardedUnsent | af_core/src/qod/qod_notification_manager.cpp:145-150 | what a stop discards was never sent |
| NotificationOutcomes.FailureSchedules | af_core/src/qod/qod_notification_manager.cpp:382-391 | a failed attempt that is not the last leaves the same notification waiting for the time set then, with one more retry on its account |
| NotificationOutcomes.NotBeforeDue | af_core/src/qod/qod_notification_manager.cpp:363-367 | however the run goes on, it is not taken for its next attempt before that time |
| NotificationOutcomes.RetriesGoFirst | af_core/src/qod/qod_notification_manager.cpp:362-372 | a due retry goes before any new notification, the earliest first |
| NotificationOutcomes.StopRequested | af_core/src/qod/qod_notification_manager.cpp:129-143 | after a stop request nothing is taken off the queues until the next start |
| NotificationDrain.RestartGoesOn | af_core/src/qod/qod_notification_manager.cpp:116-127 | after a start with at least one worker, whatever an earlier stop left behind can go on |
| NotificationSafety.EveryRun | af_core/src/qod/qod_notification_manager.cpp:129-424 | in every interleaving of producers, workers, clock, stop and restart: the queue is bounded, every accepted notification is in exactly one place, attempts never exceed the maximum and a callback runs at most once |
| NotificationSafety.InvStep | af_core/src/qod/qod_notification_manager.cpp:238-415 | every step of every thread keeps the whole invariant: one place, attempts and callbacks booked, statistics balanced, queue bounded |
| NotificationSafety.InvRun | af_core/src/qod/qod_notification_manager.cpp:238-415 | so does every run |
| NotificationSafety.AttemptsAndCallbacks | af_core/src/qod/qod_notification_manager.cpp:372-405 | at most max_retry_attempts + 1 sends, exactly that many before a final failure and none of them successful, and one callback run, with the outcome, per finalised notification that has one |
| NotificationSafety.Whereabouts | af_core/src/qod/qod_notification_manager.cpp:344-405 | an accepted notification can be found in the task queue, the retry queue, a worker's hands, among the finalised or among those discarded by stop |
| NotificationSafety.HeldOnce | af_core/src/qod/qod_notification_manager.cpp:344-372 | a notification a worker holds is nowhere else |
| NotificationSafety.PendingPositive | af_core/src/qod/qod_notification_manager.cpp:497-501 | when a success is recorded the pending count is positive, so its guard never skips the decrement |
| NotificationSafety.PendingIsOutstandingIff | af_core/src/qod/qod_notification_manager.cpp:487-507 | pending equals outstanding plus two per final failure plus the discarded ones; it is the number outstanding exactly when nothing failed for good or was discarded |
| Notifications.StepTotal | af_core/src/qod/qod_notification_manager.cpp:238-415 | conservation: for every weight on notifications, no step changes the sum over all places except acceptance |
| NotificationDrain.BudgetStep | af_core/src/qod/qod_notification_manager.cpp:360-413 | without arrivals each send uses up one remaining attempt and each worker step some remaining work |
| NotificationDrain.BudgetRun | af_core/src/qod/qod_notification_manager.cpp:360-413 | in any run without arrivals the sends and worker steps are bounded by what was left at the start |
| NotificationDrain.DrainedIff | af_core/src/qod/qod_notification_manager.cpp:344-413 | no work is left exactly when both queues are empty and no worker holds a task |
| NotificationDrain.NeverStuck | af_core/src/qod/qod_notification_manager.cpp:344-366 | while the manager runs and work is left, some worker step is possible, at the latest after a wait |
| QodNotificationManagers.QodNotificationManager.QueueNotification | af_core/src/qod/qod_notification_manager.cpp:238-281 | refuses exactly when the queue is full, otherwise appends and counts before the lock is released |
| QodNotificationManagers.QodNotificationManager.TakeTask | af_core/src/qod/qod_notification_manager.cpp:347-372 | takes a due retry with the earliest time before the oldest new task, nothing when stopping or idle, and changes nothing else |
| QodNotificationManagers.QodNotificationManager.FindTop | af_core/src/qod/qod_notification_manager.cpp:363-366 | the retry with the earliest time |
| QodNotificationManagers.QodNotificationManager.UpdateSessionStats | af_core/src/qod/qod_notification_manager.cpp:487-507 | the counters after a success or an acceptance or failure |
| QodNotificationManagers.QodNotificationManager.ClearQueue | af_core/src/qod/qod_notification_manager.cpp:145-150 | stop drops the task queue and keeps the retry queue |
| QodNotificationManagers.QodNotificationManager.PushRetryTask | af_core/src/qod/qod_notification_manager.cpp:372-381 | the task joins the retry queue |
| QodNotificationManagers.QodNotificationManager.RequestStop | af_core/src/qod/qod_notification_manager.cpp:129-132 | the manager stops running, with all queues as they were |
| NotificationSafety.PendingCountIff | af_core/src/qod/qod_notification_manager.cpp:304-307 | the pending count plus the tasks in workers' hands is the number accepted but neither finalised nor discarded, so the count alone is right if and only if no worker holds a task |
| LockOrder.NoDeadlock | af_core/src/qod/qod_notification_manager.cpp:238-424 | any number of threads making any calls in any interleaving never reach a point where one is inside a call and none can act |
| LockOrder.NoRace | af_core/src/qod/qod_notification_manager.cpp:238-507 | two threads are never both about to use what the same lock guards |
| LockOrder.ProgramsOrdered | af_core/src/qod/qod_notification_manager.cpp:245-302 | every call takes nested locks upwards only and holds none when it ends, the calls of a callback included |
| Backoff.BackoffIsCappedPowerIff | af_core/src/qod/qod_notification_manager.cpp:432-445 | with a whole multiplier of at least one and no negative initial delay, the loop computes min(initial * m^(n-1), max) for every retry if and only if the initial delay is within the maximum |
| Backoff.BackoffMonotoneIff | af_core/src/qod/qod_notification_manager.cpp:432-445 | for any real multiplier of at least one and no negative initial delay, delays never shrink with the retry number if and only if the initial delay is within the maximum |
| Backoff.BackoffRecurrence | af_core/src/qod/qod_notification_manager.cpp:437-445 | each delay is the one before times the multiplier, rounded down to whole seconds, or the maximum if that is less |
| Backoff.CapRespectedIff | af_core/src/qod/qod_notification_manager.cpp:436-445 | the maximum delay is respected for all retries if and only if the initial delay respects it |
| Backoff.JitterWindow | af_core/src/qod/qod_notification_manager.cpp:447-455 | the delay is the base delay times the jitter factor, rounded down; so the scheduled time lies between now plus three and five quarters of the base delay, rounded down |
| Backoff.CalculateNextRetry | af_core/src/qod/qod_notification_manager.cpp:432-456 | the loop with its early exit computes the scheduled time |
| QodSessions.InvRunIff | af_core/src/qod/qod_session_manager.cpp:103-573 | over any run of creations, deletions, extensions, PCF answers and terminations, cleanups and stops, the invariant of InvRun holds throughout exactly when every extension meets a session that has started and every success answer one that is not over, under no PCF id other than the one mapped to it |
| QodSessions.AfterAnyRun | af_core/src/qod/qod_state_manager.cpp:207-218 | after any run from the empty store durations are within the limits and lookup by SUPI is the scan; after a guarded one each stored session has the fields its status demands |
| QodSessions.RunBounded | af_core/src/qod/qod_session_manager.cpp:114-120 | no run, guarded or not, brings a duration out of the limits or the SUPI index out of step |
| QodSessions.InvRun | af_core/src/qod/qod_session_manager.cpp:103-315 | over any guarded run every stored session has a permitted duration; an available one has a start time, a PCF id and expiry = start + duration; an unavailable one has a reason; SUPI index and PCF map agree with the sessions |
| QodSessions.InvStepIff | af_core/src/qod/qod_session_manager.cpp:452-573 | an operation keeps that invariant if and only if it is neither an extension of a session without a start time nor a success answer that does not fit |
| QodSessions.RespondInvIff | af_core/src/qod/qod_session_manager.cpp:452-506 | a PCF answer keeps the invariant if and only if it is a failure, or a success for a session that is not over under no second PCF id |
| QodSessions.LateAnswer | af_core/src/qod/qod_session_manager.cpp:470-475 | a creation without a reply leaves an unavailable session; a success answer that comes afterwards makes it available again, its reason still set |
| QodSessions.ExtendInvIff | af_core/src/qod/qod_session_manager.cpp:343-370 | such an extension leaves an expiry on a requested session, whatever the absent start time yields |
| QodSessions.RunForwardIff | af_core/src/qod/qod_session_manager.cpp:452-506 | while a session stays stored, each step of a run moves it forward if and only if no success answer for it comes once it is over, or at another time once it has started |
| QodSessions.RunForward | af_core/src/qod/qod_session_manager.cpp:452-506 | over a run whose answers for the session are in time, its status only moves from requested to available to unavailable, its identity never changes, and while available it never gets shorter |
| QodSessions.StepForwardIff | af_core/src/qod/qod_session_manager.cpp:256-506 | an operation moves a session forward if and only if it is not such an answer for it |
| QodSessions.ExtensionsAddUp | af_core/src/qod/qod_session_manager.cpp:351-371 | any positive extensions of an available session amount to min(profile maximum, duration + their sum), never less than before, with the expiry to match; order and grouping do not matter |
| QodSessions.DeletionLifetime | af_core/src/qod/qod_session_manager.cpp:291-315 | a deleted session stays readable as DELETE_REQUESTED through any run without a cleanup at or after t + TTL, repeated deletion, termination of it, answer for it or stop, and the first such cleanup removes it and its index entry |
| QodSessions.DeletedStaysReadable | af_core/src/qod/qod_session_manager.cpp:1093-1102 | earlier cleanups and all other calls leave it unchanged, except a repeated deletion, a termination of it, an answer for it and a stop |
| QodSessions.CleanupOrder | af_core/src/qod/qod_session_manager.cpp:1093-1102 | a cleanup gives the same store in whatever order it visits the expired sessions |
| QodSessions.RemoveEachFacts | af_core/src/qod/qod_session_manager.cpp:1093-1102 | a cleanup removes just the visited sessions and keeps the index exact |
| QodSessions.GuardsUnderInv | af_core/src/qod/qod_session_manager.cpp:343-363 | in reachable stores no deletion or termination fails for want of a UE key, and an extension is undefined exactly on a session that is still requested |
| QodStores.AddIndexedIff | af_core/src/qod/qod_state_manager.cpp:146-156 | adding keeps the SUPI index exact if and only if it does not overwrite a session filed under another SUPI |
| QodStores.RemoveIndexed | af_core/src/qod/qod_state_manager.cpp:167-193 | removing keeps the SUPI index exact and leaves no empty group |
| QodStores.UpdateIndexedIff | af_core/src/qod/qod_state_manager.cpp:195-205 | an overwrite keeps the SUPI index exact if and only if the SUPI stays the same |
| QodStores.GroupedIds | af_core/src/qod/qod_state_manager.cpp:207-218 | with an exact index the ids under a SUPI are those a full scan finds |
| QodStores.QodStateManager.AddSession | af_core/src/qod/qod_state_manager.cpp:146-156 | whole store after an insertion |
| QodStores.QodStateManager.RemoveSession | af_core/src/qod/qod_state_manager.cpp:167-193 | whole store after a removal |
| QodStores.QodStateManager.UpdateSession | af_core/src/qod/qod_state_manager.cpp:195-205 | whole store after an overwrite |
| QodStores.QodStateManager.UpdateSessionStatus | af_core/src/qod/qod_state_manager.cpp:258-275 | whole store after a status change |
| QodStores.QodStateManager.GetSessionByPduSession | af_core/src/qod/qod_state_manager.cpp:277-298 | finds a session of the SUPI on that PDU session exactly when a full scan does |
| QodStores.QodStateManager.GetExpiredIds | af_core/src/qod/qod_state_manager.cpp:300-315 | exactly the sessions whose expiry plus grace has passed |
| QodSessionManagers.QodSessionManager.CreateSession | af_core/src/qod/qod_session_manager.cpp:103-231 | whole store and answer of a creation under every PCF reply; the answer and the stored session carry the request |
| QodSessionManagers.QodSessionManager.HandlePcfSessionResponse | af_core/src/qod/qod_session_manager.cpp:452-506 | whole store after a PCF answer, and when the invariant survives it |
| QodSessionManagers.QodSessionManager.HandlePcfSessionTerminated | af_core/src/qod/qod_session_manager.cpp:508-573 | the session and its mapping go together |
| QodSessionManagers.QodSessionManager.ApplySessionToPcf | af_core/src/qod/qod_session_manager.cpp:920-997 | how each PCF reply is applied and when the creation counts as applied |
| QodSessionManagers.QodSessionManager.DeleteSession | af_core/src/qod/qod_session_manager.cpp:256-319 | whole store and outcome of a deletion |
| QodSessionManagers.QodSessionManager.ExtendSessionDuration | af_core/src/qod/qod_session_manager.cpp:321-374 | whole store and outcome of an extension, also of a session without a start time, and when the invariant survives it |
| QodSessionManagers.QodSessionManager.HandlePduSessionTerminated | af_core/src/qod/qod_session_manager.cpp:575-662 | exactly one matching session goes, or there is none |
| QodSessionManagers.QodSessionManager.CleanupExpiredSessions | af_core/src/qod/qod_session_manager.cpp:1093-1107 | removes exactly the sessions whose expiry plus grace has passed |
| QodSessionManagers.QodSessionManager.GetSession | af_core/src/qod/qod_session_manager.cpp:233-254 | the stored session, exactly for the consumer it belongs to |
| QodSessionManagers.QodSessionManager.Stop | af_core/src/qod/qod_session_manager.cpp:73-88 | sessions and SUPI index are cleared, the PCF mapping stays |
| QodContents.CreateContents | af_core/src/qod/qod_session_manager.cpp:103-231 | a session is stored if and only if the request is acceptable and free of conflict; it carries the consumer, profile, duration, device, SUPI, PDU session and time of the request, and the status, times, PCF id and reason that the answer calls for; no other session changes unless the answer is a termination |
| QodContents.CreatedLives | af_core/src/qod/qod_session_manager.cpp:470-475 | an accepted session is removed by a cleanup if and only if its duration and the grace period have passed since the answer |
| QodContents.CleanupContents | af_core/src/qod/qod_session_manager.cpp:1093-1102 | a session is kept, unchanged, if and only if it has no expiry or that plus the grace period is still to come; for an available one that is start, duration and grace period |
| QodContents.DeleteContents | af_core/src/qod/qod_session_manager.cpp:256-315 | a deletion changes something only for the session's own consumer and, where the PCF knows the session, once confirmed; what it then sets, and which mapping goes |
| QodContents.ExtendContents | af_core/src/qod/qod_session_manager.cpp:321-374 | an extension changes something only for the own consumer of a session that is not over; the new duration is the sum or the profile's maximum |
| QodContents.RespondContents | af_core/src/qod/qod_session_manager.cpp:452-506 | what a success and a failure answer set, and that nothing else changes |
| QodContents.TerminateContents | af_core/src/qod/qod_session_manager.cpp:508-573 | the session the PCF id leads to and the mapping go, unless a key for it is wanted and cannot be made; nothing else changes |
| FlowDescriptions.FlowsMeanTheProduct | af_core/src/qod/qod_session_manager.cpp:1279-1345 | read back as IPFilterRules the generated list admits exactly the port pairs in the product of the two specifications, an empty one meaning any port; its length is max(1,n) * max(1,m) |
| FlowDescriptions.ReadBackIff | southbound/pcf_handler/include/flow_description_utils.h:74-90 | a description reads back as the rule it was made from if and only if both addresses are single non-empty words |
| FlowDescriptions.CoversIsSomeRange | southbound/pcf_handler/include/flow_description_utils.h:40-58 | a port is covered by a specification exactly when one of its collected texts stands for it |
| FlowDescriptions.ProductMembers | af_core/src/qod/qod_session_manager.cpp:1322-1340 | a text is in the list exactly when it is the description of some pair of specifications |
| FlowDescriptions.ProductAt | af_core/src/qod/qod_session_manager.cpp:1322-1340 | the i-th and j-th specifications have their description at place i * m + j, so each pair is listed once |
| FlowDescriptions.CollectPortSpecs | southbound/pcf_handler/include/flow_description_utils.h:40-58 | the loops collect ports first, then ranges, each printed once |
| FlowDescriptions.FormatFlowDescription | southbound/pcf_handler/include/flow_description_utils.h:74-90 | the step-by-step text |
| FlowDescriptions.BuildFlowFilters | af_core/src/qod/qod_session_manager.cpp:1250-1345 | the four branches produce the list whose meaning is proved |
| PccRules.RoundTripIff | southbound/pcf_handler/src/pcc_rule_manager.cpp:188-336 | a valid rule survives conversion and parsing, up to direction and additional parameters, exactly when its additional parameters do not overwrite a reserved field with something else; the result is valid again |
| PccRules.RateReadBack | southbound/pcf_handler/src/pcc_rule_manager.cpp:206-245 | a printed rate parses back to the same number |
| PccRules.RateIsBitRateIff | southbound/pcf_handler/src/helpers.cpp:24-29 | a printed rate matches the BitRate grammar (clause 5.5.2 of 3GPP TS 29.571) if and only if it is not negative |
| PccRules.EmittedRates | southbound/pcf_handler/src/pcc_rule_manager.cpp:206-245 | every bandwidth a valid rule emits is BitRate text |
| BitRates.RatesEmitted | southbound/pcf_handler/src/pcc_rule_manager.cpp:206-245 | the four rates of a valid rule go out under their own keys, each denoting 1000 times its value in bits per second, and exactly when one of its pair is positive |
| BitRates.KbpsDenotes | southbound/pcf_handler/src/pcc_rule_manager.cpp:220-240 | a printed rate denotes that many kilobits per second and nothing else |
| BitRates.ParserTakesNumber | southbound/pcf_handler/src/pcc_rule_manager.cpp:286-301 | the parser reads the number of a rate text whatever its unit |
| BitRates.ParserMeansItIff | southbound/pcf_handler/src/pcc_rule_manager.cpp:286-301 | what the parser reads is what the text denotes if and only if the unit is Kbps or the number zero |
| BitRates.FiveQiKeepsLowBits | southbound/pcf_handler/src/pcc_rule_manager.cpp:278-284 | a 5QI read from JSON keeps its low 32 bits |
| PccRules.PccRuleManager.ValidateRule | southbound/pcf_handler/src/pcc_rule_manager.cpp:338-393 | exactly the rules with an id, a known direction, a 5QI from 1 to 79, no negative rate and no guaranteed rate above a maximum that is set |
| PccRules.PccRuleManager.ConvertRuleToPcfFormat | southbound/pcf_handler/src/pcc_rule_manager.cpp:188-251 | the fields in the order they are written, later ones overwriting |
| PccRules.PccRuleManager.ParseRuleFromPcfFormat | southbound/pcf_handler/src/pcc_rule_manager.cpp:253-336 | the parsed rule or none, and the cache |
| PccRules.FlowsReadBack | southbound/pcf_handler/src/pcc_rule_manager.cpp:195-204 | flow descriptions come back in order |
| Decimal.StoiPrintInt | southbound/pcf_handler/src/pcc_rule_manager.cpp:253-336 | reading a printed integer gives it back if it fits 32 bits and fails otherwise |
| Decimal.StoiSkipsBlank | southbound/pcf_handler/src/pcc_rule_manager.cpp:295-297 | leading blanks are skipped when an integer is read |
| Decimal.CanonicalIffPrinted | af_core/src/models/ue_key.cpp:143-157 | the decimal strings without superfluous zeros are exactly the printed numbers |
| BundledRuntime.AlwaysSafeIff | src/bundled_af_runtime.cpp:55-181 | every interleaving uses the orchestrator and the handlers only before their release, if and only if no thread other than the owner and the threads it joins asks for shutdown |
| BundledRuntime.PatientRunsAreSafe | src/bundled_af_runtime.cpp:129-181 | with outside requesters, a run is safe when the owner releases the orchestrator only while none of them is inside the stop pass |
| BundledRuntime.UseAfterRelease | src/bundled_af_runtime.cpp:121-181 | a concrete interleaving in which a failing start releases the orchestrator while an outside requester is stopping it |
| BundledRuntime.StoppedBeforeRelease | src/bundled_af_runtime.cpp:160-181 | in a patient run of a started runtime, once no thread is inside the stop pass, and at the release, the orchestrator and then all handlers have been stopped |
| BundledRuntime.StartRuns | src/bundled_af_runtime.cpp:55-120 | a start that nothing disturbs ends running, with every handler served by its thread and the cleanup thread at work |
| BundledRuntime.FailureStops | src/bundled_af_runtime.cpp:74-81 | a thread whose handler fails requests a shutdown |
| BundledRuntime.CleanerGoesOn | src/bundled_af_runtime.cpp:85-112 | the cleanup thread sweeps while the runtime is not over and leaves once it is |
| BundledRuntime.OwnerRequests | src/bundled_af_runtime.cpp:129-136 | wait requests nothing before it is woken and then finalises; a plain request does not |
| BundledRuntime.InvRun | src/bundled_af_runtime.cpp:55-181 | the invariant of patient runs: threads, resources and lifecycle state agree |
| BundledRuntime.LifecycleRun | src/bundled_af_runtime.cpp:55-181 | in every run, whoever asks for shutdown, the lifecycle moves forward only and the orchestrator is released only after all southbound threads and the cleanup thread are joined |
| BundledRuntime.NoSecondPass | src/bundled_af_runtime.cpp:160-181 | after a claim of the stop pass nothing claims it again before the next start |
| BundledRuntime.ShutdownNeverStuck | src/bundled_af_runtime.cpp:138-158 | once the owner is finalising, it, a thread it waits for or one inside the stop pass can always move, although a handler returns only once it has been stopped |
| BundledRuntime.ShutdownCompletes | src/bundled_af_runtime.cpp:138-158 | and all steps but those of idling outside threads are bounded by a measure, so the finalisation ends |
| BundledAfRuntimes.FinalisationRuns | src/bundled_af_runtime.cpp:138-158 | with all threads ended, the finalisation runs through and leaves the runtime as built |
| BundledAfRuntimes.PassRuns | src/bundled_af_runtime.cpp:160-181 | an undisturbed request runs through and leaves the runtime stopping, everything stopped |
| BundledAfRuntimes.BundledAfRuntime.BeginStart | src/bundled_af_runtime.cpp:55-66 | starts exactly from the stopped state with an orchestrator |
| BundledAfRuntimes.BundledAfRuntime.Initialize | src/bundled_af_runtime.cpp:28-53 | refused exactly when not stopped, otherwise orchestrator and handlers exist |
| BundledAfRuntimes.BundledAfRuntime.MarkRunning | src/bundled_af_runtime.cpp:114-119 | only a runtime that is still starting becomes running |
| BundledAfRuntimes.BundledAfRuntime.RequestShutdown | src/bundled_af_runtime.cpp:160-181 | the first caller stops the orchestrator and then every handler, the last one first; all others do nothing |
| BundledAfRuntimes.BundledAfRuntime.FinalizeShutdown | src/bundled_af_runtime.cpp:138-158 | the loop over the threads and the releases make the same state as the owner's steps |
| Subscriptions.CleanupInvisible | af_core/src/subscription_manager.cpp:464-533 | with a clock that never goes back, a run with cleanups at any points and the run without them select the same subscriptions at every notification |
| Subscriptions.AnyCleanupSchedule | af_core/src/subscription_manager.cpp:512-533 | so two histories that differ only in when cleanups ran select the same |
| Subscriptions.CleanupHarmlessIff | af_core/src/subscription_manager.cpp:472-497 | for any two times, a cleanup changes a selection exactly when it removed a wanted subscription that counts as live at the later reading |
| Subscriptions.RunSize | af_core/src/subscription_manager.cpp:512-533 | the replies of a run, cleanup counts included, account for the number of stored subscriptions |
| Subscriptions.SameLiveDelete | af_core/src/subscription_manager.cpp:397-443 | deletion treats a live subscription the same way with and without the collector |
| Subscriptions.FilterAdmitsItselfIff | af_core/src/subscription_manager.cpp:483-489 | a subscription admits an event that carries the very values of its creation request if and only if none of them is a string, because only the event side is dumped with its quotes |
| SubscriptionContents.CreateContents | af_core/src/subscription_manager.cpp:60-125 | a subscription is stored if and only if the request is complete, with what the request says |
| SubscriptionContents.CreatedIsSelectedIff | af_core/src/subscription_manager.cpp:464-497 | a later event selects it if and only if it is of the requested type, comes no later than the requested seconds, or one hour, after the creation, and has every filter key with the stored text as its dump |
| SubscriptionContents.CreatedIsKeptIff | af_core/src/subscription_manager.cpp:512-533 | a cleanup keeps it if and only if that time has not passed |
| SubscriptionContents.DeleteContents | af_core/src/subscription_manager.cpp:397-443 | a deletion succeeds if and only if the subscription is stored and the client is its own or not named |
| SubscriptionContents.SelectionsAppend | af_core/src/subscription_manager.cpp:464-497 | each notification of a run selects from the store the run has reached |
| SubscriptionContents.DumpInjective | af_core/src/subscription_manager.cpp:484 | different values have different texts |
| SubscriptionContents.EscapeReadsBack | af_core/src/subscription_manager.cpp:484 | the inside of a dumped string reads back as the string |
| SubscriptionContents.FilterAdmitsJust | af_core/src/subscription_manager.cpp:98-104 | a filter made from a value that is not a string admits exactly that value |
| SubscriptionManagers.SubscriptionManager.NotifyEvent | af_core/src/subscription_manager.cpp:464-497 | the matching pass yields every active, unexpired subscription of the type whose filters all match, once |
| SubscriptionManagers.SubscriptionManager.MatchesFilters | af_core/src/subscription_manager.cpp:482-489 | the loop with its early exit decides whether all criteria match |
| SubscriptionManagers.SubscriptionManager.CleanupExpiredSubscriptions | af_core/src/subscription_manager.cpp:512-533 | removes exactly the expired subscriptions and returns the drop in size |
| SubscriptionManagers.SubscriptionManager.CreateSubscription | af_core/src/subscription_manager.cpp:52-121 | the stored subscription, or a refusal of an unusable request |
| SubscriptionManagers.SubscriptionManager.DeleteSubscription | af_core/src/subscription_manager.cpp:372-446 | not found, unauthorised or deleted, and the store after it |

## Left out

- UeStateManagers.UeStateManager.MergeUeStates: what reading an erased state does beyond yielding some state, such as a crash, is not modelled.
- UeStateManagers.UeStateManager.PromoteToResolved: a promotion onto a taken SUPI key never returns in the source; the method returns `Blocked` with an unchanged store, `UeRuns.Returns` keeps it out of runs, and `UeLocks.StuckAloneIff` states that it blocks.
- UeRuns.GpsiLookupIff: is about the value the lookup returns when it returns; `UeLocks` is about its locking.
- QodSessionManagers.QodSessionManager.ExtendSessionDuration: what reading an unset start time does beyond yielding some number is not modelled.
- QodSessionManagers.QodSessionManager.CreateSession: takes new session ids as new, since they are drawn at random, and the device lookup and the conflict check as inputs.
- QodSessions.DeletionLifetime: covers runs in which the deletion is not repeated, the network neither terminates the session nor answers for it, and the manager is not stopped.
- FlowDescriptions.FlowsMeanTheProduct: is for addresses that are single words; `ReadBackIff` shows what happens to others.
- Backoff.BackoffIsCappedPowerIff: uses real numbers for the multiplication; rounding of doubles is not modelled.
- Subscriptions.CleanupInvisible: reads the clock once per matching pass, not once per subscription.
- BundledRuntime.ShutdownCompletes: counts steps; that a southbound handler returns from its start once stopped is an assumption about the handler.
- BundledRuntime.AlwaysSafeIff: takes initialize, start, wait and destruction to be called by one owner thread; `initialize` either succeeds or throws before changing anything.
- gRPC, HTTP, REST routing, YAML configuration, logging, random id generation and JSON text: plumbing.
- The UE state's location, mobility, policy, coverage and time-sync fields, its timestamps other than the creation time, and the setters for them: plain assignments.
- The associations between PDU sessions and QoD sessions in the UE store, and what the session manager writes there: session creation overwrites PDU data wholesale.
- The values that lookups by address, MAC address and PDU session return, and the search over all UE states: they block when the address is indexed, or are plain scans.
- UeLocks.StuckWithWriterIff: is for a lock that gives waiting writers precedence, which the C++ standard leaves open; a lock that prefers readers is not modelled.
- The syntax check for MAC keys.
- `AfUeSubscriptionState` is a value in the model: the source copies states in and out of its map; the reference that provisioning returns is not modelled.
- The per-session task list, its cancellation (which does not touch the queues), statistics timestamps and the statistics clean-up.
- More than one stop of the notification manager at a time.
- Status-change notifications of the session manager, its cleanup thread's timing and the PCF request texts other than flow descriptions.
- The width of port numbers: ports are natural numbers.
- The creation of PCC rules from media components and application sessions, and `flow_description_utils` callers in the PCF handler.
- Sending to the selected subscribers, and listing or reading single subscriptions; filter values and event data that are not strings, integers or booleans.
- Signal handling: a handler that runs on one of the process's threads is treated as an outside thread.

# A verified model of the Rolebook backend's state machines

The backend stores tabletop role-playing campaigns. Most of it is request plumbing, but six parts are
real state machines, and this project models those and proves what they promise:

- the **initiative tracker**: deriving a turn order (`TurnOrder`, `TurnOrderLaws`), the mutations of a
  call (`Tracker`, `TrackerLaws`, `TrackerEffects`), fairness of whole encounters (`Fairness`), optimistic
  versioning under any interleaving (`InitiativeStore`, `Linearization`, `LinearizationLimits`,
  `InitiativeReports`) and the snapshot broadcaster (`Hub`);
- **limited uses**: multi-step spending, restoring and resetting on one document (`LimitedUses`,
  `LimitedUseLaws`, `LimitedUseEffects`, `LimitedUseRuns`, `Spenders`, `SpenderLimits`);
- the **password reset** protocol: two session stores (`ResetStore`, `ResetStoreLaws`, `ResetStores`), the three request
  programs (`ResetHandlers`), their interleavings (`ResetProtocol`) and what follows (`ResetSafety`);
- **journal sharing**: per-recipient cloning over three collections (`Journal`, `JournalLaws`,
  `JournalSharing`, `JournalCopies`, `JournalEffects`, `JournalStores`);
- the **campaign aggregate**: members, sessions, schedules, private notes (`Campaign`, `CampaignLaws`,
  `CampaignHistory`, `CampaignEffects`, `CampaignStore`);
- the **coin purse** (`Coins`).

`Seqs` holds the stock types and sequence facts shared by all.

## How the model is built

Every database or Redis command is one atomic step: a filter, then an update. The code around the commands
follows the source's loops and field updates as methods, often of classes, and each such method is proved
equal to a function of the old state. The promises are then proved of those functions, so they hold of the
methods. What a request answers and leaves is also stated without those functions, field by field and with
the limits as numbers (the modules named `...Effects`, `...Reports` and `...Copies`).

Where requests interleave (tracker, limited uses, password reset, broadcaster) a state machine executes
single commands of any number of requests in any order. The methods of the real handlers take the same
programs: a parameter `worlds` says what the other requests have made of the stored state before each
command, and the method is proved to do what the machine's program does. Where the source gives no
version field and the handlers are short (journal, campaign), each handler is one step.

Generated identifiers are fresh by assumption: the tracker and the limited uses receive them as
parameters that must be new, the journal and the campaign count them. The clock of the reset stores does
not run backwards. Hash functions are uninterpreted: a code comparison is any predicate, a token hash any
function.

Redis drops a key at its deadline; whether it still exists at the very millisecond of the deadline is not
decided by the modelled sources, so it is a parameter of everything said about the Redis store.

## What came out

Several things the source's comments or a first reading suggest are not quite so. Each is settled by a
condition that is exact or by runs that reach the case.

- *Everybody acts once per round* needs the round's owner to stay: if p leaves the cycle after q has acted
  and comes back before its own turn, q can act twice. `RoundIsFair` gives the exact condition,
  `RoundCanBeUnfair` the example in every cycle of two, `CycleOfTwoIsReached` a run that gets there.
- *Participants without a roll sort last* (comment at internal/initiative/turnorder.go:10) holds of a list
  exactly when every roll beats the sentinel -999, up to ties by name and place (`UnrolledSortsLast`). The
  turn order itself is derived from rolled participants only (internal/initiative/turnorder.go:57-66), so it is
  not affected.
- *Mutations linearize* unless a write succeeds although a start or a resolve fell between it and its read.
  As long as none does, the stored call is the replay of exactly the requests that reported success
  (`QuietRunIsReplay`), and only then the record reaches back to the start (`RecordReachesBack`). Starting
  resets the version to 1 and resolving keeps it, so a write in flight can undo either
  (`ResolveInWindowIsLost`, `StartInWindowIsLost`), at every version (`LostAtEveryVersion`).
- *DeleteSession returns false for a missing session* (comment at internal/store/campaign.go:173): of a
  missing session it returns false exactly if the last write to the campaign bears the present millisecond,
  because the deletion also sets that stamp (`MissingSessionIsDeletedToo`).
- *One retry of a spend is enough* among any number of spenders. Among other requests, a spender can report
  that no uses are left although one is there only if, between its first operation and its last, the entry
  was restored, reset, switched to the other kind or created (`NoSpenderFailsInVain`), and of an entry that comes
  back on rest and is not switched, twice (`TwoLiftsToFailInVain`). Restores alone, resets
  alone and switches alone each suffice (`RestoreExhaustsTheRetry`, `ResetsExhaustTheRetry`,
  `SwitchesExhaustTheRetry`).
- *A code earns one token* unless verifications overlap: two promotions rest on the same issued code exactly
  if the session was not written, promoted, cleared or dropped between the two reads of the code, and then both
  read it before either promoted (`OneTokenPerCode`). After a promotion a verification still gets a token exactly
  if it had read its code before and that code fits (`AfterAPromotion`); `CodeEarnsTwoTokens` is a run that gets
  there. Such a verification can promote even after a reset has used the first token and cleared the session
  (`CodeOutlivesAReset`); any other one needs a code issued since (`ClearedTokenNeedsANewPromotion`).
- *A reset token works once* unless resets overlap: two accepted tokens go back to one promotion exactly if the
  session did not turn between the two reads of the token (`OneResetPerPromotion`, `TokenUsedTwice`).
- *The two reset stores behave alike* if and only if no request meets a deadline of its own email at the very
  millisecond: a session's end if Redis drops keys there, a cooldown's end if it keeps them (`StoresAgree`,
  `StoresDifferAtTheInstant`).
- *A confirmed slot locks availability*, but a locked schedule still lets members withdraw
  (`WithdrawalIgnoresTheLock`).

Session notes are limited by the bytes of their UTF-8 encoding, although the limit is documented in
characters (internal/handler/session_notes.go:11-12); the model counts bytes.

## Model

| member | source | states |
|---|---|---|
| TurnOrder.SortParticipants | internal/initiative/turnorder.go:11-30 | the in-place stable sort of a copy yields the stable initiative-descending, name-ascending order |
| TurnOrder.RotateIDsToFront | internal/initiative/turnorder.go:32-45 | rotates the active participant to the front, leaves the list alone when nobody or an absent one is active |
| TurnOrder.TurnOrderParticipantIDs | internal/initiative/turnorder.go:51-110 | the filter, sort, merge and rotate loops compute the order function, empty for a missing or closed call |
| TurnOrder.MergeFrozen | internal/initiative/turnorder.go:75-99 | survivors of the frozen order first, then everybody missing from it in sorted order |
| TurnOrder.Resort | internal/initiative/turnorder.go:115-121 | forgets the frozen order and nothing else |
| TurnOrder.SyncTurnState | internal/initiative/turnorder.go:124-136 | the call's order and current turn are re-derived in place, nothing else changes |
| TurnOrderLaws.LessWeakOrder | internal/initiative/turnorder.go:14-28 | the comparison is a strict weak order, as sorting needs |
| TurnOrderLaws.SortIsStable | internal/initiative/turnorder.go:11-30 | the result is sorted and keeps tied participants in their original order |
| TurnOrderLaws.StableSortUnique | internal/initiative/turnorder.go:11-30 | sortedness and stability determine the result: no other list has both |
| TurnOrderLaws.SortPutsBefore | internal/initiative/turnorder.go:14-28 | one participant ends before another exactly if it beats it, or ties with it and came before it |
| TurnOrderLaws.UnrolledSortsLast | internal/initiative/turnorder.go:10-20 | in the sorted list nobody without a roll stands before somebody with one, if and only if every roll beats the sentinel against everybody who has not rolled |
| TurnOrderLaws.SortedIdsElems | internal/initiative/turnorder.go:55-73 | the derived order lists exactly the rolled, non-skipped participants |
| TurnOrderLaws.SortedIdsNoDup | internal/initiative/turnorder.go:55-73 | the derived order has no duplicates when participant ids are distinct |
| TurnOrderLaws.MergeSame | internal/initiative/turnorder.go:75-99 | merging an order with a re-sorted list of the same participants gives the order back |
| TurnOrderLaws.SyncRestores | internal/initiative/turnorder.go:124-136 | whatever a mutation left behind, synchronising restores the invariant: duplicate-free order of exactly the eligible ids, current turn at its head, plain sort before the cycle starts |
| TurnOrderLaws.SyncIdempotent | internal/initiative/turnorder.go:124-136 | synchronising twice is synchronising once, for every call |
| TurnOrderLaws.ValidIsSynced | internal/initiative/turnorder.go:51-110 | the stored order of a valid call is what would be derived again |
| TurnOrderLaws.StartedSync | internal/initiative/turnorder.go:75-110 | in a running cycle survivors keep their order, leavers go, joiners are appended |
| Tracker.SubmitRoll | internal/handler/initiative.go:249-265 | sets the submitted number and its author on every participant of the player and leaves the others, rejects when there is none |
| Tracker.RollEnemy | internal/handler/initiative.go:290-315 | re-rolls and renames the named enemy or adds a new one with a fresh id |
| Tracker.PassTurn | internal/handler/initiative.go:325-348 | rejects without an order or for the wrong player, else rotates the derived order and starts the cycle |
| Tracker.SetSkipped | internal/handler/initiative.go:422-436 | flips the skip flag of the first participant with the id |
| Tracker.DropEnemy | internal/handler/initiative.go:453-484 | removes an enemy from participants, order and current turn, refuses to remove a player |
| Tracker.Start | internal/handler/initiative.go:132-178 | one participant per roster entry other than the DM, nothing rolled, cycle not started, version 1 |
| Tracker.StartIsValid | internal/handler/initiative.go:132-178 | a started call satisfies the invariant for every roster with distinct player ids |
| TrackerLaws.MutateKeepsIds | internal/handler/initiative.go:249-485 | no mutation duplicates or invents an id or repeats one in the frozen order |
| TrackerLaws.StepKeepsValid | internal/handler/initiative.go:190-225 | every accepted request keeps the invariant of a stored open call |
| TrackerLaws.EndTurnRotates | internal/handler/initiative.go:325-348 | ending a turn moves the acting participant to the back and changes nothing else |
| TrackerLaws.EndTurnAllowed | internal/handler/initiative.go:325-343 | an end-turn is accepted exactly from the DM or the player of the acting participant; without an order it is bad, from anybody else forbidden |
| TrackerLaws.RunningOrderEvolves | internal/initiative/turnorder.go:75-99 | every other request keeps survivors in order, drops leavers and appends joiners |
| TrackerLaws.LeavingKeepsTheRest | internal/handler/initiative.go:422-484 | skipping or removing keeps everyone else in place; the turn stays, or passes to the successor of the one who left |
| TrackerLaws.JoiningGoesLast | internal/initiative/turnorder.go:88-99 | whoever newly enters a running cycle goes to the very end |
| TrackerLaws.ResortTurnsTheSort | internal/initiative/turnorder.go:115-136 | after a resort in a running cycle the order is the full sort rotated to the unchanged current participant |
| TrackerLaws.ResortTwice | internal/handler/initiative.go:366-369 | a second resort changes nothing |
| TrackerLaws.ResortBeforeStart | internal/handler/initiative.go:366-369 | before the cycle starts a resort changes nothing |
| TrackerEffects.GateLetsThrough | internal/handler/initiative.go:234-450 | who gets past the gate: the DM with proper arguments, players for their own roll and for ending a turn, and with which answer others do not |
| TrackerEffects.SubmitIsStored | internal/handler/initiative.go:249-265 | a roll is accepted exactly if the player takes part; then each of the player's participants has that very number and the caller as author, and nothing else of anybody changes |
| TrackerEffects.EnemyIsStored | internal/handler/initiative.go:290-315 | an enemy's roll changes name, number and author of the first participant with the id, or appends one enemy with them, or finds nobody |
| TrackerEffects.SkipIsStored | internal/handler/initiative.go:422-436 | exactly the flag of the first participant with the id is set as asked |
| TrackerEffects.EnemyIsRemoved | internal/handler/initiative.go:453-484 | exactly the enemy with the id goes; a player stays and the request is bad; an unknown id is not found |
| TrackerEffects.SortedByTheNumbers | internal/initiative/turnorder.go:11-66 | in the plain order one participant comes before another if and only if both rolled and are not skipped and it rolled more, or the same with the alphabetically smaller name, or the same under the same name and was listed first |
| TrackerEffects.HigherNumberActsFirst | internal/initiative/turnorder.go:51-73 | before the cycle starts the stored order of a call goes by the submitted numbers |
| TrackerEffects.StartListsTheRoster | internal/handler/initiative.go:132-178 | a started call lists everybody on the roster but the DM, in order, players and enemies told apart, nothing rolled |
| Fairness.RoundIsFair | internal/handler/initiative.go:325-348 | between two consecutive turns of p everybody eligible throughout acts, and acts exactly once if and only if p never left the cycle after they had acted |
| Fairness.SteadyRoundIsFair | internal/handler/initiative.go:325-348 | when p stays too, everybody who stays acts exactly once per round |
| Fairness.RoundCanBeUnfair | internal/handler/initiative.go:422-436 | from every two-participant cycle: a round in which someone eligible throughout acts twice |
| Fairness.CycleOfTwoIsReached | internal/handler/initiative.go:234-348 | from the start of any call with two players, both rolls and one end-turn lead to a running cycle of the two |
| InitiativeStore.Store.Get | internal/store/initiative.go:36-47 | returns a fresh copy of the stored call with its version, or nothing |
| InitiativeStore.Store.StartReplace | internal/store/initiative.go:50-60 | replaces whatever is stored and resets the version to 1 |
| InitiativeStore.Store.UpdateWithVersion | internal/store/initiative.go:66-82 | writes with the next version exactly if the expected version is still stored, else writes nothing |
| InitiativeStore.Store.Resolve | internal/store/initiative.go:89-113 | resolves an open call without a new version and leaves a resolved or missing one alone |
| InitiativeStore.MutateWithRetry | internal/handler/initiative.go:190-225 | the retry loop is the request program of the state machine, whatever other requests do at each read and write |
| InitiativeStore.Serve | internal/handler/initiative.go:234-485 | a gated request ends without touching the store, any other goes through the retry loop |
| InitiativeStore.AttemptCounts | internal/handler/initiative.go:194-224 | a conflicting attempt is counted; the third one gives up |
| Linearization.UndisturbedWriteIsAtomic | internal/store/initiative.go:66-82 | a write in whose window no start, resolve or expiry fell starts from the very document it replaces |
| Linearization.FailedWriteWritesNothing | internal/handler/initiative.go:206-216 | a rejected or conflicting request leaves the document alone |
| Linearization.StoredCallIsValid | internal/handler/initiative.go:166-225 | under every interleaving a stored open call satisfies the tracker's invariant |
| Linearization.Linearizable | internal/store/initiative.go:66-82 | the stored call is the successes recorded since the last start, resolve, expiry or disturbed write, applied one after another, and the version counts them |
| Linearization.QuietRunIsReplay | internal/handler/initiative.go:190-225 | after a start and any requests, but no further start, resolve or expiry, and unless a request that read before the start succeeds after it: the stored call is the started one with exactly the requests applied that reported success since, in the order of the versions they reported, and the version is one more than their number |
| Linearization.RecordReachesBack | internal/store/initiative.go:50-82 | after a start and any requests the recorded history begins at that start if and only if no request succeeded that had read before it |
| Linearization.NobodyLoadedNobodyStale | internal/handler/initiative.go:194-216 | no such request can succeed when nobody is between read and write at the start |
| Linearization.QuietRequestsAreAtomic | internal/handler/initiative.go:190-225 | with quiet windows every request is applied atomically to the current call or leaves it alone |
| Linearization.OnlyPermittedChanges | internal/handler/initiative.go:234-465 | all recorded changes are the DM's, or players rolling for themselves or ending their own turn: what the gates in front of the retry loop and the end-turn check let through |
| Linearization.RequestsEnd | internal/handler/initiative.go:194-225 | every request ends within three attempts, at most six store operations, whatever the others do |
| InitiativeReports.AnswersAreTrue | internal/handler/initiative.go:190-225 | every answer of every run is true of some moment of it: an update replaced a stored open call by the request's result and was stored, a rejection is the gate's or what a stored open call deserved, no open call means none was open |
| InitiativeReports.GivesUpAfterThreeConflicts | internal/handler/initiative.go:194-224 | a request gives up if and only if three of its accepted changes met a conflict, after exactly six store operations |
| LinearizationLimits.WindowOpens | internal/handler/initiative.go:194-214 | a request ready to write is reached two steps after a start |
| LinearizationLimits.ResolveInWindowIsLost | internal/store/initiative.go:89-100 | a resolve between a read and its write is undone by the write |
| LinearizationLimits.StartInWindowIsLost | internal/store/initiative.go:50-52 | a new call started in a window opened at any version is replaced by the old call once it has come to that version again |
| LinearizationLimits.LostAtEveryVersion | internal/store/initiative.go:50-82 | for every version a run from no call at all in which that happens |
| Hub.Hub.Subscribe | internal/initiativehub/hub.go:46-58 | a subscription gets the next id and an empty channel, joins its campaign's bucket and takes nobody out of any |
| Hub.Hub.Unsubscribe | internal/initiativehub/hub.go:60-69 | the channel leaves its bucket, an emptied bucket leaves the map |
| Hub.Hub.Publish | internal/initiativehub/hub.go:78-102 | undisturbed, every subscriber of the campaign and nobody else is offered the snapshot once |
| Hub.SendsOfferOnce | internal/initiativehub/hub.go:85-101 | the copy and the single sends of the state machine do the same to the channels |
| Hub.AlwaysInv | internal/initiativehub/hub.go:46-102 | under every interleaving no empty bucket stays mapped, buckets hold only channels of their campaign, no channel holds more than 16 |
| Hub.IdsAreNeverReused | internal/initiativehub/hub.go:50-51 | the next id was never used and no channel changes its campaign |
| Hub.SubscriberSeesItsCampaign | internal/initiativehub/hub.go:94-101 | received plus queued snapshots are an in-order subsequence of the sends tried, all of the subscriber's campaign, and all of them exactly if no send met 16 pending |
| Hub.SubscribersAreThoseWhoStayed | internal/initiativehub/hub.go:46-71 | after any interleaving an id is in a campaign's bucket if and only if a subscription to it got that id and was not cancelled since |
| Hub.PublishersTakeThemAll | internal/initiativehub/hub.go:82-91 | a publisher's copy lists exactly those subscribers, once each |
| Hub.PublishesAreOfferedOnce | internal/initiativehub/hub.go:78-102 | in every run the messages offered on a channel plus those publishers still owe it are exactly the messages published while it was subscribed; one message is taken per receive |
| LimitedUses.PlayerStore.UpdateOneElement | internal/store/player_limited_uses.go:59-64 | the first element the filter matches is updated and no other changes; without a match nothing does |
| LimitedUses.PlayerStore.SpendOnce | internal/store/player_limited_uses.go:166-210 | conditional removal, conditional decrement, read and one retry are the state machine's spend program |
| LimitedUses.PlayerStore.CompareAndSet | internal/store/player_limited_uses.go:239-267 | read, decide, conditional write, at most twice, is the state machine's compare-and-set program |
| LimitedUseLaws.MatchIsLookup | internal/store/player_limited_uses.go:166-200 | with distinct ids each filter matches exactly the entry with its id, when that entry qualifies |
| LimitedUseLaws.OperationIsAtomic | internal/store/player_limited_uses.go:90-267 | a store operation either completes its request with exactly the request's atomic effect on the document it found, or writes nothing |
| LimitedUseLaws.FailureIsRight | internal/store/player_limited_uses.go:90-267 | reported failures are true of the document they were decided on, with the exceptions named |
| LimitedUseLaws.AtomicKeepsUses | internal/store/player_limited_uses.go:90-157 | 0 ≤ remaining ≤ max ≤ 99, max ≥ 1, distinct ids and at most 50 entries survive every effect |
| LimitedUseEffects.LetThrough | internal/handler/limited_uses.go:27-135 | trimmed names of 1 to 60 characters, trimmed notes up to 200, maxima of 1 to 99, and an edit that names something are let through, nothing else |
| LimitedUseEffects.AddIsStored | internal/store/player_limited_uses.go:90-110 | an unused entry is appended with what was asked, exactly if the player exists and has less than fifty |
| LimitedUseEffects.EditIsStored | internal/store/player_limited_uses.go:115-142 | the entry takes each field the patch names, keeps the others, and remaining uses go down to a smaller maximum; no other entry changes |
| LimitedUseEffects.DeleteIsStored | internal/store/player_limited_uses.go:144-157 | exactly the entry goes |
| LimitedUseEffects.SpendIsStored | internal/store/player_limited_uses.go:162-210 | one use less, the last use of a one-time entry together with the entry, a failure exactly without a use |
| LimitedUseEffects.RestoreIsStored | internal/store/player_limited_uses.go:213-221 | one use more, a failure exactly at the maximum |
| LimitedUseEffects.ResetIsStored | internal/store/player_limited_uses.go:223-232 | all uses back, a failure exactly for entries that do not reset |
| LimitedUseEffects.MissingIsNotFound | internal/store/player_limited_uses.go:115-267 | any other request is not found exactly if there is no such entry |
| LimitedUseEffects.ChangedAfterFourOperations | internal/store/player_limited_uses.go:239-267 | a restore or reset reports a change underneath only after two reads and two writes that missed |
| LimitedUseRuns.EffectIsConserved | internal/store/player_limited_uses.go:115-267 | every effect changes the entry's ledger as it changes the entry |
| LimitedUseRuns.AlwaysConserved | internal/store/player_limited_uses.go:90-267 | in every reachable state remaining = created + restored + refilled − spent − clamped, and the list is in range |
| LimitedUseRuns.RequestsEnd | internal/store/player_limited_uses.go:90-267 | in every run every request makes at most six store operations, and an unfinished one always has one left to make |
| Spenders.SpendersShareTheUses | internal/store/player_limited_uses.go:162-210 | of N spenders of an entry with R uses exactly min(N, R) succeed; a used-up one-time entry is gone and exactly one spender reported its removal |
| Spenders.FailureMeansUsedUp | internal/store/player_limited_uses.go:195-210 | with nobody but spenders on the entry a failure means that it is used up, then and ever after |
| Spenders.NoSpenderFailsInVain | internal/store/player_limited_uses.go:166-210 | among any requests a spender ends with no uses left while uses remain only if the entry was restored, reset, switched or created while it was under way |
| Spenders.TwoLiftsToFailInVain | internal/store/player_limited_uses.go:166-210 | of an entry that comes back on rest and is not switched meanwhile, a spender ends in vain only if the entry was lifted at least twice while it was under way |
| SpenderLimits.RestoreExhaustsTheRetry | internal/store/player_limited_uses.go:202-210 | a run of spends and one restore in which a spender gives up although a use is there from beginning to end |
| SpenderLimits.SwitchesExhaustTheRetry | internal/store/player_limited_uses.go:202-210 | the same with edits that switch the entry between its kinds |
| SpenderLimits.ResetsExhaustTheRetry | internal/store/player_limited_uses.go:202-210 | a run of spends and two resets in which a spender gives up while a use is there |
| ResetStores.Memory.DoMarkSent | internal/resetstore/memory.go:31-40 | answers and changes as the specification says for the slot of this email: one send, then a cooldown; other emails are unaffected |
| ResetStores.Memory.DoGet | internal/resetstore/memory.go:52-64 | serves the live session of the slot; deleting an overdue entry changes no slot |
| ResetStores.Memory.DoIncrAttempts | internal/resetstore/memory.go:66-76 | counts an attempt on the slot's live session and returns the count; returns 0 and changes no slot without one |
| ResetStores.Redis.DoSetCode | internal/resetstore/redis.go:51-59 | the commands give the slot a fresh session with its deadline, keep every session's deadline and other slots |
| ResetStores.Redis.DoIncrAttempts | internal/resetstore/redis.go:77-85 | the script counts an attempt on the slot's live session and creates nothing without one: no session lacks a deadline afterwards |
| ResetStores.Redis.DoPromoteToToken | internal/resetstore/redis.go:87-95 | the commands replace the slot's session by the token with a new deadline, whatever fields there were |
| ResetStoreLaws.MemoryRefines | internal/resetstore/memory.go:31-94 | every operation answers and changes as an eagerly expiring slot does and leaves other emails alone: lazy deletion is never observable |
| ResetStoreLaws.PromotePipeline | internal/resetstore/redis.go:87-95 | the field-by-field pipeline leaves the token and nothing else |
| ResetStoreLaws.RedisRefines | internal/resetstore/redis.go:42-99 | the Redis command sequences implement the same slots and never leave a session without a deadline |
| ResetStoreLaws.MemoryRunRefines | internal/resetstore/memory.go:31-94 | over any sequence of requests with a monotone clock Memory gives the replies of the eager slots |
| ResetStoreLaws.RedisRunRefines | internal/resetstore/redis.go:42-99 | so does Redis, with its own way of comparing deadlines, whichever it is |
| ResetStoreLaws.RepliesAgree | internal/resetstore/memory.go:35-70 | two ways to compare deadlines give the same replies over a run if and only if no request meets at the very instant a deadline that they compare differently |
| ResetStoreLaws.StoresAgree | internal/resetstore/redis.go:42-99 | over any run with a monotone clock the two stores give the same replies if and only if no request meets such a deadline of its own email |
| ResetStoreLaws.StoresDifferAtTheInstant | internal/resetstore/memory.go:35-56 | for either comparison of Redis a run of two requests on which the stores differ |
| ResetHandlers.ForgotAlone | internal/handler/auth.go:472-525 | an undisturbed request for a code replaces the session exactly for a known account outside the cooldown; the answer never tells |
| ResetHandlers.VerifyAlone | internal/handler/auth.go:535-593 | every answer of an undisturbed verification: a token exactly for a pending code with less than five attempts that matches; a wrong code costs one attempt and nothing else |
| ResetHandlers.VerificationEnds | internal/handler/auth.go:545-592 | a verification that goes on undisturbed from any point gets its token exactly if the code it holds, or finds pending, fits and an attempt is left; always once it has compared |
| ResetHandlers.ResetAlone | internal/handler/auth.go:606-663 | every answer of an undisturbed reset: it succeeds exactly for the promoted token of an existing account, sets the password and clears session and cooldown |
| ResetHandlers.AuthHandler.ForgotPassword | internal/handler/auth.go:472-496 | the handler on the in-process store does to the email's slot and account what the machine's program does, with other requests acting before each operation |
| ResetHandlers.AuthHandler.IssueResetCode | internal/handler/auth.go:500-525 | cooldown mark, then code |
| ResetHandlers.AuthHandler.VerifyResetCode | internal/handler/auth.go:535-593 | read, checks, reserved attempt, comparison with the code read, promotion |
| ResetHandlers.AuthHandler.ResetPassword | internal/handler/auth.go:606-663 | read and token check, account lookup, password write, clear |
| ResetProtocol.ExecKeepsInv | internal/handler/auth.go:548-592 | under every interleaving the stored session is the one last written, attempts cover the comparisons charged to it, and every logged event was justified |
| ResetProtocol.RequestsEnd | internal/handler/auth.go:472-663 | in every run every request makes at most four operations, and an unfinished one always has one left to make |
| ResetSafety.AtMostFiveComparisons | internal/handler/auth.go:560-582 | at most five comparisons between two successive events that write, promote, clear or expire the session |
| ResetSafety.ComparisonIsChargedToItsCode | internal/handler/auth.go:545-582 | every comparison is with a code that was pending when the same request read it, and is one of at most five since that code was issued unless the session turned between read and comparison |
| ResetSafety.PasswordResetIsBacked | internal/handler/auth.go:545-650 | every password reset rests on a token read by the same request, current and unexpired then, promoted after a matching comparison by the promoting request with the code it had read, which was the latest issued, unexpired, neither replaced nor used nor cleared, at that read |
| ResetSafety.ClearedTokenNeedsANewPromotion | internal/handler/auth.go:535-655 | after a reset has cleared the session a token is accepted only after a promotion later than the clear, earned with a code that was issued after the clear or that the promoting request had read before it |
| ResetSafety.CodeOutlivesAReset | internal/handler/auth.go:545-655 | from the start of any account a run for the second case: a verification under way promotes after a reset cleared the session, and its token changes the password again, nothing being issued, read or compared after the clear |
| ResetSafety.OneTokenPerCode | internal/handler/auth.go:535-593 | in every run two promotions rest on the same issued code if and only if the session did not turn between the two requests' reads of it, and then both reads come before both promotions; a request that reads after a promotion needs a code issued after it |
| ResetSafety.OneTokenPerRequest | internal/handler/auth.go:535-593 | one request promotes at most once, and the code, read and comparison its promotion rests on are unique |
| ResetSafety.OneResetPerPromotion | internal/handler/auth.go:622-655 | in every run two accepted tokens go back to the same promotion if and only if the session did not turn, so was not cleared, between the two reads |
| ResetSafety.NeverCodeAndToken | internal/resetstore/memory.go:42-86 | a code and a token are never both stored |
| ResetSafety.OnlyResetsChangeThePassword | internal/handler/auth.go:648-651 | no request of the protocol changes the password but a reset past its token check |
| ResetSafety.OverlappingResetsBothPass | internal/handler/auth.go:622-652 | two resets that read the token before either clears it both set the password |
| ResetSafety.TokenUsedTwice | internal/handler/auth.go:606-655 | from the start of any account a run in which two resets set the password with the same token |
| ResetSafety.OverlappingVerificationsBothPromote | internal/handler/auth.go:579-592 | two verifications that read the code before either promotes both get a token; only the last one works |
| ResetSafety.AfterAPromotion | internal/handler/auth.go:545-592 | once a verification has promoted, another one that goes on undisturbed still gets a token if and only if it had read its code before and that code fits |
| ResetSafety.CodeEarnsTwoTokens | internal/handler/auth.go:535-593 | from the start of any account a run in which one issued code earns two tokens: the overlap that OneTokenPerCode leaves open is reached |
| JournalLaws.CascadeOk | internal/handler/journal_share.go:170-212 | the cascade's id map is exactly the listed links of which the recipient now has a clone; only the linked collection grows |
| JournalLaws.CascadeReach | internal/handler/journal_share.go:130-212 | afterwards a clone exists exactly where one existed before or a listed link could be cloned |
| JournalLaws.CascadePinsOk | internal/handler/location.go:417-452 | each newly cascaded pin is the recipient's copy of a listed pin on the source, moved to the clone; each such listed pin has a copy afterwards |
| JournalSharing.CloneEntryOk | internal/handler/location.go:374-415 | a fresh clone is private to the recipient, keeps content, length and order of links, and each link leads where the cascade list says; no existing document changes |
| JournalSharing.ListedLinks | internal/handler/journal_share.go:130-153 | a listed link ends with a clone if and only if its source existed or its clone already did |
| JournalSharing.ShareEntryOk | internal/handler/location.go:355-366 | a share ends with exactly the recipients' unique clones, in order, and only adds documents |
| JournalSharing.ClonePinOk | internal/handler/map_pin.go:305-354 | a fresh pin clone is private to the recipient and points at the recipient's clone of the entry when cascaded, else at the same entry |
| JournalSharing.SharePinOk | internal/handler/map_pin.go:289-299 | the same as ShareEntryOk for pins |
| JournalSharing.HandleKeepsInv | internal/handler/location.go:65-452 | every request keeps clones unique per recipient and pins pointing at existing entries |
| JournalSharing.AtMostOneClone | internal/handler/journal_share.go:130-165 | in every reachable journal a source has at most one clone per recipient in each collection |
| JournalSharing.PinsReferToEntries | internal/handler/map_pin.go:83-95 | in every reachable journal location pins name existing locations, NPC pins existing NPCs, other pins nothing |
| JournalSharing.ShareEntryAgain | internal/handler/location.go:370-381 | sharing again with the same members, at once or after requests that delete nothing, inserts nothing and returns the same clones, whatever is cascaded |
| JournalSharing.SharePinAgain | internal/handler/map_pin.go:301-312 | the same for pins |
| JournalSharing.OnlyOwnersChangeDocuments | internal/handler/location.go:164-172 | members change only their own documents, apart from pins on an entry they delete; sharing changes none and a refused request nothing |
| JournalSharing.DeletionTakesItsPins | internal/handler/location.go:264-295 | an accepted deletion takes the caller's entry and exactly the pins on it, and no other document |
| JournalSharing.PinsNeverMove | internal/handler/map_pin.go:134-186 | over any requests a pin keeps its type, its entry, its owner and its origin while it exists, and its id is not reused |
| JournalCopies.RecipientsAre | internal/handler/journal_share.go:84-109 | sharing with all reaches the members other than the owner, in order; sharing with a list fails exactly if it names somebody unknown other than the owner, and else reaches one member per listed player other than the owner, in order, the last one with that player |
| JournalCopies.CascadeCopies | internal/handler/journal_share.go:170-253 | every entry a cascade adds is a private copy of a listed link without its note, locations without links |
| JournalCopies.ShareEntryGives | internal/handler/location.go:355-452 | every recipient without a clone gets a faithful one and the listed pins, and everything new is a recipient's clone or a copy of a listed link or pin |
| JournalCopies.SharePinGives | internal/handler/map_pin.go:289-354 | the same for pins; new entries are copies of the one the pin is on, if cascaded |
| JournalCopies.ShareReaches | internal/handler/location.go:321-370 | every answer of a share request; an accepted one replies one clone for each player reached, in order, and every new document belongs to one of them, to listed players only if a list was given |
| JournalCopies.SharePinsReaches | internal/handler/map_pin.go:255-303 | the same for pins |
| JournalEffects.NormalizeInOrder | internal/handler/location.go:131-148 | normalised lists keep first occurrences in their order |
| JournalEffects.OnlyOnesOwn | internal/handler/map_pin.go:134-150 | a request on a missing document is not found, on somebody else's forbidden, and on no other |
| JournalEffects.EntryIsStored | internal/handler/location.go:65-127 | a named entry, with a top-level parent if any, is stored as asked, readable by its owner alone; otherwise nothing is |
| JournalEffects.EntryIsEdited | internal/handler/location.go:153-240 | an edit that names something changes exactly what it names; owner and origin stay |
| JournalEffects.PinIsStored | internal/handler/map_pin.go:67-128 | a pin on an entry needs one the caller can read and no text, any other a title and no entry; it is stored as asked, readable by its owner alone |
| JournalEffects.PinIsEdited | internal/handler/map_pin.go:134-186 | an edit that names something changes exactly what it names |
| JournalEffects.PinIsDeleted | internal/handler/map_pin.go:190-216 | exactly the caller's pin goes |
| JournalStores.FindCloneOf | internal/store/location.go:95-109 | finds the recipient's clone exactly if there is one |
| JournalStores.RewriteIds | internal/handler/journal_share.go:114-124 | mapped ids are replaced, others pass through, order is kept |
| JournalStores.NormalizeStringSlice | internal/handler/location.go:131-148 | drops empties and repetitions, keeps first occurrences in order |
| JournalStores.VisibilityAllowsRead | internal/handler/journal_share.go:18-31 | owner, everybody if shared with all, or a listed player |
| JournalStores.ResolveShareRecipients | internal/handler/journal_share.go:76-110 | all members but the owner, or one per listed player but the owner; an error exactly if somebody unknown is listed |
| JournalStores.Stores.CloneLinkedFor | internal/handler/journal_share.go:219-253 | existing clone, nothing for a missing source, or a new clone; locations lose their links |
| JournalStores.Stores.CascadeLinked | internal/handler/journal_share.go:170-212 | the loop over the source's links restricted to the cascade list |
| JournalStores.Stores.CascadePinsFor | internal/handler/npc.go:346-381 | the loop over the pins to cascade, skipping foreign and already cloned ones |
| JournalStores.Stores.CloneEntryFor | internal/handler/npc.go:304-342 | lookup, link cascade, rewrite, insert, pin cascade |
| JournalStores.Stores.ClonePinFor | internal/handler/map_pin.go:305-354 | lookup, optional entry cascade, insert |
| JournalStores.Stores.ShareEntriesHandler | internal/handler/npc.go:250-297 | owner gate, recipients, one clone per recipient |
| JournalStores.Stores.NewPinHandler | internal/handler/map_pin.go:67-128 | the rules per type of pin, with the visibility check |
| JournalStores.Stores.Serve | internal/handler/map_pin.go:67-354 | any request on the stores is the specified step and keeps the invariant |
| CampaignLaws.HandleKeepsInv | internal/store/campaign.go:174-281 | one active DM, distinct ids, one availability entry per player and only of active members, valid dates and slots, non-empty valid zones, notes about existing sessions only: kept by every request of every user |
| CampaignLaws.ReachableCampaignIsOk | internal/handler/campaign.go:211-264 | all of this holds in every campaign reachable from its creation |
| CampaignHistory.HandleEvolves | internal/store/campaign.go:426-687 | no session id is reused, no zone changes, and where a slot is confirmed no entry is added or altered |
| CampaignHistory.TimezoneNeverChanges | internal/store/campaign.go:454-464 | over any sequence of requests a schedule's zone stays while its session exists |
| CampaignHistory.LockedEntriesOnlyDisappear | internal/store/campaign.go:466-470 | as long as a slot stays confirmed the entries are a subsequence of what they were |
| CampaignHistory.AvailabilityIsStored | internal/handler/session_schedule.go:58-124 | accepted exactly from an active member, for valid dates and zone, on an open schedule or by the DM opening one; then it is the member's one entry and everybody else's stays |
| CampaignHistory.WithdrawalIgnoresTheLock | internal/store/campaign.go:503-548 | a withdrawal removes exactly the caller's entry, confirmed slot or not |
| CampaignHistory.SlotReadsBack | internal/handler/session_schedule.go:155-252 | a confirmed slot reads back as put, clearing leaves none, entries and zone stay, only the DM gets there |
| CampaignHistory.ArchivingClearsAvailability | internal/handler/campaign.go:381-405 | archiving keeps exactly the other players' entries of every schedule, in order, and nothing else of a session changes |
| CampaignHistory.MissingSessionIsDeletedToo | internal/store/campaign.go:174-215 | a deletion reports a missing session as missing exactly if the stored time stamp is the present millisecond, otherwise as deleted; only the stamp changes then; an existing session goes and is reported |
| CampaignHistory.NotesReadBack | internal/handler/session_notes.go:111-170 | a note reads back trimmed with a proper direction, an empty one is gone, no other note of anybody changes |
| CampaignHistory.TrimmedText | internal/handler/session_notes.go:27-36 | trimming removes white space at both ends and nothing else |
| CampaignHistory.MembersStay | internal/store/campaign.go:218-281 | members only join; identity and role never change; who is active changes only as the DM asks for that very player |
| CampaignEffects.GatesAre | internal/handler/session_schedule.go:58-252 | outsiders see nothing, availability and notes are for active members, the rest for the DM; a refusal changes nothing, a change is stamped |
| CampaignEffects.SetActiveIsStored | internal/handler/campaign.go:338-405 | done exactly for an existing player; then that member's flag is as asked and no other member changes, and bringing back leaves all sessions alone; bad for the DM, not found otherwise |
| CampaignEffects.ArchivedMayNotWrite | internal/handler/session_notes.go:111-130 | over any run in which nobody brings an archived player back, that player's availability, withdrawals and notes are forbidden |
| CampaignEffects.MemberIsAdded | internal/store/campaign.go:218-236 | an existing user joins last, as an active player with a new id and no notes |
| CampaignEffects.CreatorIsTheDM | internal/handler/campaign.go:211-264 | the creator is the only member, DM and active |
| CampaignEffects.SessionIsAdded | internal/handler/session.go:25-66 | a titled session is appended with a new id and no schedule |
| CampaignEffects.SessionIsEdited | internal/handler/session.go:68-109 | an edit changes name and description as named; schedule, other sessions and members stay |
| CampaignEffects.SessionIsRemoved | internal/store/campaign.go:174-215 | the other sessions stay in order, and of every member exactly the note on the session goes |
| CampaignEffects.OnlyTheScheduleChanges | internal/store/campaign.go:426-640 | a schedule request touches the schedule of its session and nothing else |
| CampaignEffects.AvailabilityAnswers | internal/handler/session_schedule.go:58-124 | when an availability is bad, not found, not initialised or locked |
| CampaignEffects.WithdrawalAnswers | internal/handler/session_schedule.go:127-150 | a withdrawal is done exactly on an existing session |
| CampaignEffects.SlotAnswers | internal/handler/session_schedule.go:155-252 | when confirming or clearing a slot is bad, not found or done |
| CampaignEffects.NoteAnswers | internal/handler/session_notes.go:111-170 | a note is accepted exactly on an existing session up to ten thousand bytes, and touches that member's notes only |
| CampaignEffects.BytesOfOne | internal/handler/session_notes.go:27-36 | a character counts as many bytes as UTF-8 takes for it |
| CampaignEffects.BytesAddUp | internal/handler/session_notes.go:27-36 | bytes of a text add up over its parts |
| CampaignStore.Compact | internal/store/campaign.go:529-535 | the in-place compaction leaves exactly the other players' entries, in order |
| CampaignStore.Document.SetSessionAvailability | internal/store/campaign.go:426-498 | find, bootstrap, lock check, replace or append |
| CampaignStore.Document.DeleteSessionAvailability | internal/store/campaign.go:503-548 | find, compact, write |
| CampaignStore.Document.SetSessionConfirmedSlot | internal/store/campaign.go:553-598 | find, bootstrap, set the slot |
| CampaignStore.Document.DeleteSessionConfirmedSlot | internal/store/campaign.go:602-640 | find, clear the slot |
| CampaignStore.Document.PruneSchedulesForPlayer | internal/store/campaign.go:645-687 | the nested loops that write only touched sessions prune every schedule |
| CampaignStore.Document.SetPlayerActive | internal/store/campaign.go:241-281 | the guarded update and the second look tell a player, a missing member and the DM apart |
| CampaignStore.Document.DeleteSession | internal/store/campaign.go:174-215 | returns whether the first write modified the document: exactly if the session exists or the stamp changes; then strips the session's notes from every member |
| CampaignStore.Document.PutAvailabilityHandler | internal/handler/session_schedule.go:58-124 | membership, dates, zone and bootstrap gates in front of the store |
| CampaignStore.Document.PutNoteHandler | internal/handler/session_notes.go:111-170 | active-member, session and length gates, then upsert or removal |
| CampaignStore.Document.SetActiveHandler | internal/handler/campaign.go:338-411 | DM gate, flip, archive cascade; when done the player's flag is as asked and every other member is as before |
| CampaignStore.Document.Serve | internal/handler/session_schedule.go:58-252 | any request on the document is the specified step and keeps the invariant |
| Coins.ParseCoinDeltas | internal/handler/coins.go:26-47 | in any visiting order: accepts exactly whole numbers within a thousand million for known denominations, not all zero, and returns those very numbers |
| Coins.PlayerPurse.ApplyCoinUpdate | internal/store/player.go:538-556 | accepted exactly if every guarded amount is there; then every amount grows by its increment, else none changes |
| Coins.PlayerPurse.AdjustCoins | internal/store/player.go:562-572 | the loop builds a guard for every debit and all increments |
| Coins.PlayerPurse.ConvertCoins | internal/store/player.go:577-582 | accepted exactly if there are enough coins; then the two denominations change by amount and gain and no other does |
| Coins.ConversionKeepsValue | internal/model/coins.go:39-49 | a conversion succeeds exactly when well-formed and even, keeps the copper value, and no product or gain exceeds a million million |
| Coins.ConversionRoundTrip | internal/model/coins.go:39-49 | converting the gain back gives the amount if and only if the gain is within the request limit |
| Coins.AdjustIsAllOrNothing | internal/store/player.go:562-572 | an adjustment is accepted exactly when its body is proper and no denomination would go negative; then every denomination grows by the number in the body, else none changes |
| Coins.ConvertMovesValue | internal/handler/coins.go:96-130 | a conversion is accepted exactly when even and covered, and moves value without creating any; each refusal is named |
| Coins.WorthIsConserved | internal/store/player.go:538-582 | over any sequence of requests no denomination goes negative and worth = initial + the numbers in the bodies of the accepted adjustments, at their copper values |

## Left out

- HTTP decoding, JSON, trimming of names in requests on limited uses, routing, status codes, the SSE writer, authentication of users and resolution of memberships other than the campaign's own: plumbing; requests arrive decoded, callers with their role and player.
- Image storage and signed links, email sending, rate limiting, code and token generation: outside the modelled state; generated values come with the request.
- Database driver behaviour beyond single-command atomicity: I/O failures, transactions, the moment at which a TTL index acts (any moment, for resolved calls).
- Timestamps (created, submitted, confirmed, cloned at; updated, except that of the campaign) and avatar links: carried along by the source without influence on anything modelled, except the clock of the reset stores.
- Machine integers: stored balances and counters are unbounded here; the products and gains of a single conversion are shown to stay far below the source's 64-bit range, sums over very many requests are not.
- JSON numbers of the coin requests are taken as real numbers; the rounding of literals beyond the precision of a double is not modelled.
- Patches use plain field names of the right type; dotted names and stray fields are not modelled. Partial visibility patches arrive completed with their defaults.
- Depth of sub-locations: the source checks the proposed parent only, so re-parenting a location that has children exceeds one level; nothing is claimed.
- That every pin clone points at a cloned entry: a pin the recipient already has a clone of is skipped and keeps pointing where it did.
- Interleavings inside journal and campaign handlers: each is one step, because the documents carry no version and the source promises nothing there.
- Moving a reset request's account to another email while it is in progress: an account is identified with its email.
- Which documents a sharer can read: cascades clone listed links without looking at their visibility (internal/handler/journal_share.go:130-153), and links are stored unchecked; nothing is claimed about what a share discloses.
- Hub.Hub.Publish: states the undisturbed case; under concurrency its copy and sends are separate steps of the state machine.
- LimitedUseLaws.FailureIsRight: a Changed answer, a list that got room again before the player was counted, and a second miss while a use remains are not shown to be true of the document, because they need not be.
- ResetSafety.AtMostFiveComparisons: a comparison is charged to the session on which the attempt was counted, which an overlapping request may have replaced since the code was read; comparisons with one code that were still under way when the session turned are not bounded.
- Linearization.Linearizable: the record restarts at a disturbed write that succeeds; what lies before it is not claimed to be part of the stored call, because it need not be.
- CampaignStore.Document.SetActiveHandler: requires distinct player ids, which every reachable campaign has; the source relies on generated ids for it.
- Registration, email verification, change of email, catalog, inventory, spells, custom content, companions, world notes and migrations: straight-line gates or plain records.

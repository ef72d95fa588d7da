# Verified model of the Log73 backend core

Log73 is a contest logger. Its backend keeps derived state that is updated step by step and must agree with a simple
recomputation: contest totals, the cached copy of a log, the band map and its clients, cached logins, composed contest
rules, and the text forms of a log. This project models those parts and proves that they do agree, over all inputs, all
runs and all interleavings.

`dafny verify dfyconfig.toml` checks the whole project with Dafny 4.11.

| part | files | what is proved |
|---|---|---|
| contest scoring | `Sums`, `ScoringSpec`, `ScoringLedger`, `ScoringOperations`, `ScoringBatches`, `ScoringShades`, `ScoringRuns`, `ScoringTheorems`, `ScoringMeaning`, `ScoringReports`, `ScoringOrder`, `ScoringDrift`, `ScoringAftermath`, `ScoringLimits`, `ScoreTracker` | what the score is; the incremental totals equal scoring from scratch after any run; order independence; caps; exactly when a batch drifts, and that drift stays |
| authentication | `Authentication` (with the protocol), `AuthSafety`, `AuthAnswers`, `AuthTies`, `AuthService` | only justified requests are let in; exactly what happens to a request at once; one check per key; bounds; every waiting request gets its answer; least recent eviction |
| band map | `BandMapSpec`, `BandMapEvents`, `BandMapEffects`, `BandMapClients`, `BandMapReconcile`, `BandMapOrder`, `BandMapHidden`, `BandMapLag`, `BandMapStore` | events rebuild every view; clients never show a wrong state; reconciliation is exact and idempotent; exactly when pruning is complete |
| contest rules | `ContestYaml` (with the keyed lists), `ContestPresets`, `ContestCompose`, `ContestMeaning`, `ContestLoader` | the law of the deep merge; keyed merges; presets terminate and leave nothing behind; memoised inheritance equals plain recursion; exactly what fails |
| log cache | `LogGate`, `LogRevisions`, `LogProgress`, `LogOrder`, `LogPages`, `LogCache`, `ScoredCache` | one task per log; an accepted copy is never stale and always scored; logs get loaded and no change is lost; fast and slow updates agree with a fresh copy; paging by prefix |
| ADIF | `Utf8`, `AdifText`, `AdifRoundTrip`, `AdifMeaning`, `AdifReading`, `AdifFile` | exactly which texts are read, and as which records; parsing a rendered log gives the log back |
| dates | `QsoTime` | day numbers walk the Gregorian calendar; text and epochs are inverse |

Code that works in place is a class or a loop (`ScoreTracker`, `AuthService`, `BandMapStore`, `ContestLoader`, `LogCache`,
`AdifFile`), each method proved equal to a function of its inputs and the old state; the theorems are about those
functions. Concurrent code is a state machine whose steps are the critical sections of the source, in every interleaving.

Where the model had to choose:

- Contacts always have ids, as the database hands them out; those of a batch come without score marks, since a row of the
  database has none (`backend/src/db/contacts.rs:394-437`), and `BatchKeepsIff` uses that. What the rules make of a contact
  (dupe key, points, multiplier candidates, bonus keys) is part of the contact; the rules themselves are arbitrary.
- Hash maps are visited in no particular order, so every operation that visits one is proved for every order. A partition
  point of a list that is not partitioned may be any place.
- A contact that the cache stores has its missing fields filled in (`fill`); filling in twice changes nothing.
- Trimming, upper case and the password check are parameters wherever their details do not matter; white space in ADIF is
  that of Unicode. The clock never goes back.
- A document of contest rules compares mappings without regard to order, as the YAML library does; errors are not told apart.

Findings, each stated with a concrete case and its exact condition where one exists:

- A removal in a batch may hand a freed key to a contact of the batch that is not scored yet. If that is a multiplier or
  bonus key, the books are wrong after the batch and stay wrong, whatever is committed or deleted, until the log is loaded
  again (`GrantsBreakTheBooks`, `DriftStays`, with `TwoEditsInOneBatchDrift` as the case). If it is a dupe key that another
  contact has too, both may end as dupes and a score is lost (`TwoEditsLoseAScore`). Where bonus keys are worth
  something, that is all that can go wrong: `BatchKeepsIff` has the exact condition for a batch, `RunKeepsIff` for a run.
  Batches of new contacts, single edits, and batches in which no new version contests what another edited contact owned
  always meet it (`PlainBatches`, `UndisturbedIsSpared`).
- Deleting the last contact leaves the totals of an empty log exactly if the rules give nothing for nothing
  (`EmptiedLogTotals`, with `EmptiedLogKeepsAMultiplier` as the case).
- Pruning is complete exactly if the expired spots come first in the list by time (`PruneIsCompleteIff`). An id that
  reconciliation leaves in the list can break that order (`IdLeftBehindHidesExpired`).
- The notice that a session has missed messages makes its client skip an event exactly if the client expects that number next
  and the event means something to it (`LagNotice`, `LagNoticeLosesSpot`, with `LagNoticeCanLoseASpot` as the case).
- A task that has compared revisions and is about to change its copy may come too late for a direct write; the copy then does
  not count as loaded until the log is asked for again. Apart from deleting what is not there, that is the only way a task
  left alone ends without a copy that is ready (`LeftAlone`).
- Entries that enter the login cache with no lookup in between have the same age for eviction (`TiesGoEitherWay`, with
  `EitherMayBeEvicted` as the case).

## Model

| member | source | states |
|---|---|---|
| ScoringMeaning.ScoreIs | backend/src/scoring.rs:297-423 | what the scorer computes, in terms of the contacts alone and with caps: the first contact with a dupe key counts; a candidate of a counting contact earns an award unless its key was awarded before or the awards under the same cap (those that share its `capGroup`, or are of its rule) have used it up; the first offer of a bonus key is paid. Contacts, points, multipliers (at least the minimum), bonus points with the two count bonuses, the product with the factor, and the marks of every contact follow |
| ScoringMeaning.AwardsAreUnique | backend/src/scoring.rs:376-400 | the contacts determine which candidates earn an award |
| ScoringMeaning.RunScore | backend/src/scoring.rs:955-1399 | what the running totals are after loading any log and any run as in RunTotals, in terms of the contacts in it: one contact of each dupe key counts, and the five totals are those of the points, multiplier keys, bonus keys and count keys of the contacts that count |
| ScoringTheorems.RunTotals | backend/src/scoring.rs:955-1309 | after loading any log and any run of deletes and of batches (new contacts and edits mixed) under uncapped rules, the running totals are those the left-to-right scorer gives the surviving contacts, non-dupes first (what they are, RunScore says); the state invariant (one counting contact per dupe key, owned keys = keys that counting contacts offer, marks = worth of owned keys) holds. A batch may hand dupe keys to its own contacts if those will count for them, but no multiplier or bonus keys; RunKeepsIff says that this is no more than what the invariant needs |
| ScoringDrift.BatchKeepsIff | backend/src/scoring.rs:1001-1020 | exactly when a batch keeps the books: for every mix of edits and new contacts, under rules whose bonus keys are worth something, the invariant holds afterwards if and only if no search for an heir of a multiplier or bonus key stops at a contact of the batch, and each dupe key that stands under a contact of the batch once the old versions are gone is in nobody's count and that contact is the first of the batch with it |
| ScoringAftermath.RunKeepsIff | backend/src/scoring.rs:955-1058 | a run of delivered deletes and batches keeps the invariant after every step if and only if each batch meets that condition |
| ScoringAftermath.DriftStays | backend/src/scoring.rs:1001-1058 | a batch that hands a multiplier key to one of its own contacts, or a bonus key where those are worth something, spoils the log for good: after any further batches and deletes nothing is booked too little, but the total is more than what is owned or some contact owns more than it is marked with; so the invariant never holds again before the log is loaded anew |
| ScoringAftermath.UpsertCovers | backend/src/scoring.rs:1001-1020 | a batch books nothing too little and makes up for no excess: if the books balance after it, they balanced before |
| ScoringAftermath.DeleteCovers | backend/src/scoring.rs:1055-1055 | and so does a delete |
| ScoringDrift.WaitersCount | backend/src/scoring.rs:1105-1120 | if the invariant holds once a batch is scored, every dupe key that stood under one of its contacts before was in nobody's count, and that contact the first of the batch with it |
| ScoringDrift.GrantsBreakTheBooks | backend/src/scoring.rs:1001-1020 | for every batch whatever: if the books balance right after it (each contact is marked with what it owns, and the total is the worth of the owned keys), no removal has handed a multiplier key to a contact of the batch, nor a bonus key that is worth something |
| ScoringDrift.RemoveBooks | backend/src/scoring.rs:1137-1238 | a removal changes the difference between the running total and the worth of the owned keys by what the leaving contact owns beyond its marks, and takes no key from anybody else |
| ScoringDrift.AddEachBooks | backend/src/scoring.rs:1011-1020 | scoring a batch keeps that difference, and the marks of each contact leave out what it owned before it was scored |
| ScoringLimits.EmptiedLogTotals | backend/src/scoring.rs:1137-1238 | deleting the last contact leaves the totals of a fresh scorer if and only if the rules give nothing for nothing (no positive minimum multiplier count, bonuses of no keys adding up to 0) |
| ScoringLimits.EmptiedLogKeepsAMultiplier | backend/src/scoring.rs:1137-1238 | a concrete case: with a minimum of one multiplier, a log whose only contact is deleted keeps one multiplier where the scorer has none |
| ScoringLimits.TwoEditsInOneBatchDrift | backend/src/scoring.rs:1001-1020 | a delivered batch in which a new version contests a multiplier key that another edited contact owned can drift: a log worth two multipliers is booked with three |
| ScoringLimits.TwoEditsLoseAScore | backend/src/scoring.rs:1174-1186 | a delivered batch in which a dupe key passes to a new version can lose a score, with no multipliers and bonuses at all: the new owner and the contact that shares the key both end as dupes, and the log has one point instead of two |
| ScoringTheorems.ResetAgrees | backend/src/scoring.rs:1085-1135 | resetting the incremental state over any contacts gives the same totals, tables and marks as scoring them from nothing, caps and cap groups included |
| ScoringTheorems.CapsHold | backend/src/scoring.rs:376-400 | each entry of the group table is the number of keys awarded in that group, each offered there by a contact that counts; every candidate of a counting contact is awarded or meets an exhausted cap; a group whose rules share one maximum never awards more than it |
| ScoringTheorems.CappedStepsRescore | backend/src/scoring.rs:991-999 | under capped rules every callback leaves the totals and marks of scoring the log it was given |
| ScoringTheorems.TotalsDetermined | backend/src/scoring.rs:1378-1399 | the totals of a state that satisfies the invariant depend only on which contacts count and what the rules make of them |
| ScoringTheorems.LogTotals | backend/src/scoring.rs:1378-1399 | a log that satisfies the invariant has the totals the scorer gives its contacts, non-dupes first |
| ScoringTheorems.NonDupesFirst | backend/src/scoring.rs:412-423 | the reordering behind the main theorem keeps every contact exactly once |
| ScoringTheorems.SameDupes | backend/src/scoring.rs:361-370 | taken non-dupes first, the scorer finds exactly the dupes that the state has marked |
| ScoringOrder.OrderIndependent | backend/src/scoring.rs:412-423 | when contacts with one dupe key agree on what they earn, every permutation of a log has the same uncapped totals |
| ScoringOrder.RunOrderIndependent | backend/src/scoring.rs:955-1058 | and every incremental run ends with the totals that the scorer gives the survivors in any order |
| ScoringOrder.SumByUnit | backend/src/scoring.rs:1102-1135 | exactly one contact of each dupe key counts, so sums over contacts are sums over dupe keys |
| ScoringOperations.AddKeeps | backend/src/scoring.rs:1102-1135 | scoring a new contact keeps the invariant |
| ScoringOperations.ReplacedKeepsBooks | backend/src/scoring.rs:1144-1198 | freeing a contact's keys and promoting the next with its dupe key keeps counters, claims and marks, but for the freed keys |
| ScoringOperations.ReplacedDupes | backend/src/scoring.rs:1157-1198 | and it keeps the owners of the dupe keys right: whoever is not the owner of its key is a dupe |
| ScoringOperations.RemoveKeeps | backend/src/scoring.rs:1137-1238 | removing a contact from the log keeps the invariant, whatever the order in which the freed keys are visited |
| ScoringOperations.RemoveKeepsBooks | backend/src/scoring.rs:1137-1238 | in a batch too, removing an old version keeps counters, claims and marks of those that stay, as long as no multiplier or bonus key passes to a contact about to come or go |
| ScoringOperations.RemoveDupes | backend/src/scoring.rs:1154-1198 | in a batch too, removing an old version keeps the dupe marks of those that stay in line with the owners of the dupe keys, even if a dupe key passes to a contact of the batch |
| ScoringLedger.HandOnKeeps | backend/src/scoring.rs:1200-1235 | handing freed keys on keeps the books, and every key that some counting contact offers finds an owner |
| ScoringBatches.PlainBatches | backend/src/scoring.rs:1001-1020 | batches of new contacts only, and batches of one contact, are never contested |
| ScoringBatches.UndisturbedIsSpared | backend/src/scoring.rs:1001-1009 | if no new version offers or has a key that another edited contact owned, no removal hands a multiplier or bonus key to a contact of the batch, and no dupe key stands under one afterwards |
| ScoringBatches.SparedIff | backend/src/scoring.rs:1197-1235 | no removal of a batch hands a multiplier or bonus key to a contact of the batch if and only if, in each, the searches for heirs stop outside the batch; no contact of the batch may come marked as a dupe and be promoted |
| ScoringBatches.OrdersAreOfTheStart | backend/src/scoring.rs:1182-1191 | what each removal of a batch frees, one ledger after the other, is what the contact owned before the batch if nothing passes to the batch, so the orders the callback visits are orders of those keys |
| ScoringShades.BooksAfterRemovals | backend/src/scoring.rs:1001-1009 | taking out the old versions of a batch one after the other keeps the books of those that stay and those still to go, whatever keys the old versions share among themselves |
| ScoringShades.DupesAfterRemovals | backend/src/scoring.rs:1001-1009 | meanwhile the dupe marks of those that stay and the key counts stay right, wherever dupe keys pass |
| ScoringShades.OldVersionsLeave | backend/src/scoring.rs:1001-1009 | the old versions of a mixed batch leave the ledger in good order, but for the dupe keys that wait for contacts of the batch, if no multiplier or bonus key passes to the batch and nobody else has the waiting keys |
| ScoringRuns.AddEachAlike | backend/src/scoring.rs:1010-1020 | scoring a batch gives the same ledger and contacts whether or not the dupe keys that wait for its contacts stand in the owner table, if each waits for the first of the batch with the key and nobody else has it |
| ScoringShades.ShadeMimics | backend/src/scoring.rs:1144-1152 | taking out of the counters a contact that offers only the keys it owns, or a bare one for a dupe, does what taking out the contact does |
| ScoringOperations.RemoveSpares | backend/src/scoring.rs:1137-1238 | a removal that nobody contests leaves each contact about to come or go exactly the keys it owns |
| ScoringRuns.UndisturbedCanStep | backend/src/scoring.rs:1001-1020 | every delivered batch in which no new version contests what another edited contact owned is a step of a run |
| ScoringRuns.UpsertKeeps | backend/src/scoring.rs:972-1028 | a batch of new contacts and edits keeps the invariant, if it hands no multiplier or bonus key to its own contacts, and dupe keys only to those that will count for them |
| ScoringRuns.StepKeeps | backend/src/scoring.rs:972-1058 | each batch and each delete keeps the invariant |
| ScoringRuns.LoadKeeps | backend/src/scoring.rs:956-970 | a loaded log satisfies the invariant, and its dupes are the contacts whose key occurred before |
| ScoringRuns.RunKeeps | backend/src/scoring.rs:955-1066 | a whole run keeps the invariant |
| ScoringRuns.ChangesAreReported | backend/src/scoring.rs:1441-1459 | an upsert or delete changes nothing but marks, and only of contacts it reports or that were just committed |
| ScoringReports.ReportsAreExact | backend/src/scoring.rs:1001-1058 | where bonus keys are worth something, an uncapped delete reports exactly the contacts whose marks it changed, and an upsert does so of the contacts that were not just committed |
| ScoringReports.CappedReportsAll | backend/src/scoring.rs:991-999 | under capped rules every contact is reported |
| ScoreTracker.CollectedIs | backend/src/scoring.rs:1441-1459 | the reported contacts are those with a changed id that is not excluded, in the order of the log |
| ScoreTracker.ContestScorer.AddQso | backend/src/scoring.rs:297-327 | scores one contact in place as the scorer function does, of which ScoreIs says what it computes |
| ScoreTracker.ContestScorer.Multipliers | backend/src/scoring.rs:376-400 | counts and records the new, uncapped multiplier keys of a contact |
| ScoreTracker.ScoreAll | backend/src/scoring.rs:412-423 | marks a whole log in place as the scorer function does, and returns its totals |
| ScoreTracker.IncrementalLogState.AddContact | backend/src/scoring.rs:1102-1135 | the in-place form of adding a contact equals the ledger function the theorems are about |
| ScoreTracker.IncrementalLogState.Reset | backend/src/scoring.rs:1085-1100 | the in-place reset equals scoring the whole log into an empty ledger |
| ScoreTracker.IncrementalLogState.ScoreNonDupeContact | backend/src/scoring.rs:1270-1309 | claims exactly the keys nobody owns |
| ScoreTracker.IncrementalLogState.PromoteContact | backend/src/scoring.rs:1240-1268 | makes a dupe count, as the ledger function does |
| ScoreTracker.IncrementalLogState.PassDupeKey | backend/src/scoring.rs:1174-1186 | an owned dupe key passes to the first other contact with it, or is released |
| ScoreTracker.IncrementalLogState.RemoveContact | backend/src/scoring.rs:1137-1238 | the in-place removal equals the ledger function for some order of the freed keys |
| ScoreTracker.IncrementalLogState.OnContactsUpserted | backend/src/scoring.rs:972-1028 | the upsert callback: new state, marks and reported contacts |
| ScoreTracker.IncrementalLogState.OnContactDeleted | backend/src/scoring.rs:1030-1058 | the delete callback: new state, marks and reported contacts |
| ScoreTracker.RemoveOwnedKeys | backend/src/scoring.rs:1311-1320 | takes out exactly the keys of one owner, and lists each once in some order |
| AuthSafety.CachedAllowedIsJustified | backend/src/auth.rs:122-153 | a request let in at once while login is enabled carries correct credentials, and a check of them succeeded less than 30 minutes earlier with no effective change since |
| AuthSafety.WaitedAnswerIsJustified | backend/src/auth.rs:154-187 | a request that waited is let in only by a returned, successful check of its own password with no effective change between its first and last critical section; it is refused only if the credentials changed or are wrong |
| AuthAnswers.ArrivalIs | backend/src/auth.rs:122-176 | in every run, exactly which of six things happens to a request at once: let in if and only if login is disabled or its success is remembered; refused if and only if it carries no credentials or another user; busy if and only if its key needs a check that nobody runs while 32 are pending; it joins check i if and only if check i is in flight for its key; otherwise it queues a new check. It never fails at once |
| AuthAnswers.CheckGivesVerdict | backend/src/auth.rs:189-258 | a check that runs gives the verdict of the verifier, and is remembered exactly if it is a success |
| AuthAnswers.FailsOnlyWithItsCheck | backend/src/auth.rs:197-226 | a waiting request fails only if its check got no permit or its verifier did not return |
| AuthAnswers.RefusalFails | backend/src/auth.rs:231-231 | a check that gets no permit any more fails with everyone who waits for it, and nothing is remembered |
| AuthAnswers.CompletionIs | backend/src/auth.rs:227-258 | what the end of a check leaves in the cache: its own success, and all that was there but for a least recently used entry of a cache with 256 |
| AuthAnswers.ReplacementIs | backend/src/auth.rs:98-112 | a new configuration that changes who may log in empties the cache, ends what every check counts for, and has everyone who waits refused; any other changes nothing else |
| AuthAnswers.ForgottenInTime | backend/src/auth.rs:134-149 | after any time, credentials in the cache are let in at once exactly if their check is less than half an hour old, however often they were used |
| AuthAnswers.HashingHolds | backend/src/auth.rs:261-270 | hashing a password holds one of the two permits of the checks, and gives it back |
| AuthSafety.GenerationTells | backend/src/auth.rs:98-112 | the generation is equal at two moments exactly if the effective credentials stayed the same throughout |
| AuthSafety.SingleFlight | backend/src/auth.rs:155-176 | in every reachable state the checks in flight correspond one-to-one with the pending keys; pending stays within 32, the cache within 256 and running checks within the permits |
| AuthSafety.NeverStuck | backend/src/auth.rs:178-187 | while a request waits, its answer is there or some work under way can move on; no waiting request is orphaned |
| AuthSafety.EveryoneIsAnswered | backend/src/auth.rs:154-187 | after any run, work under way alone leads to an answer for every waiting request, in at most as many steps as there is work: three for a queued check, one for each hash and each waiting request |
| AuthSafety.WorkEnds | backend/src/auth.rs:154-187 | however work under way goes on, each of its steps leaves less of it, so it ends |
| AuthSafety.EvictsLeastRecent | backend/src/auth.rs:235-258 | when a full cache evicts an entry that was hit or put in at some step, every other entry has a use with at least the same access count; after a hit, a use no earlier than it |
| AuthSafety.TiesGoEitherWay | backend/src/auth.rs:247-256 | putting an entry in does not advance the access count, so entries put in with no cache lookup in between tie, and either may be evicted first |
| AuthTies.EitherMayBeEvicted | backend/src/auth.rs:238-256 | a run of 257 requests after which the cache is full, a check has succeeded, and either of two tied entries may be evicted for it |
| AuthSafety.CacheHistory | backend/src/auth.rs:227-258 | every cache entry stems from a success at the time it names, under the current generation |
| AuthSafety.SuccessHistory | backend/src/auth.rs:197-226 | a check counts as a success only after the verifier has returned for it |
| AuthProtocol.ActKeeps | backend/src/auth.rs:98-258 | every interleaved step keeps the protocol invariant |
| AuthProtocol.EnterFacts | backend/src/auth.rs:122-176 | what the first critical section of a request may change |
| AuthProtocol.CompleteKeepsCache | backend/src/auth.rs:227-258 | an insertion keeps the cache bounded and correct |
| AuthService.LockedState.ReplaceConfig | backend/src/auth.rs:98-112 | the in-place configuration change: refuses everything in progress exactly if the effective credentials change |
| AuthService.LockedState.Enter | backend/src/auth.rs:122-176 | the in-place first critical section equals the specification, of which ArrivalIs says exactly what it answers |
| AuthService.LockedState.LeastRecent | backend/src/auth.rs:238-246 | finds an entry with the smallest access count |
| AuthService.LockedState.Finish | backend/src/auth.rs:227-258 | the in-place last critical section of a check equals the specification |
| AuthService.LockedState.Leave | backend/src/auth.rs:182-187 | the answer of a waiting request |
| Authentication.SplitOnce | backend/src/auth.rs:131-133 | splits at the first colon, as section 2 of RFC 7617 asks |
| BandMapClients.RunFollows | backend/src/bandmap.rs:344-442 | over any mix of reports, prunes, deletions and reconciliations the event numbers have no gaps, and the events carry every view, of everyone or of one session, from the first store to the last |
| BandMapEvents.DoKeeps | backend/src/bandmap.rs:533-699 | each operation keeps the key/id bijection and the listing, and its events carry every view |
| BandMapEffects.DeleteIsExact | backend/src/bandmap.rs:648-681 | after deleting a spot its id is in no index, its key stands for nothing, every other key for what it did, and clients are told once if and only if the spot was live |
| BandMapEffects.DeleteClusterIsExact | backend/src/bandmap.rs:655-681 | deleting the spot of a cluster report forgets the key of that report and nothing else, with one event if there was one |
| BandMapEffects.ReportIsExact | backend/src/bandmap.rs:344-373 | after a report its key stands for what was reported, under the id it had or one never used before; every other key keeps its spot; and clients are told of it unless nothing they show has changed |
| BandMapEffects.PruneIsExact | backend/src/bandmap.rs:629-646 | pruning deletes expired spots only, leaves the others as they are, and tells clients once of each |
| BandMapEffects.SessionSees | backend/src/bandmap.rs:718-727 | a session is shown every spot but the local spots of other logs, in its snapshot and in its messages |
| BandMapEffects.SameLocalSpot | backend/src/bandmap.rs:389-400 | two local spots have one key exactly if log, call and band agree, or the frequency to a tenth of a kilohertz where the band is unknown |
| BandMapClients.ListingIsExact | backend/src/bandmap.rs:611-618 | the listing shows each visible live spot exactly once |
| BandMapClients.SnapshotIsView | backend/src/bandmap.rs:182-189 | the table a client makes of a snapshot is the view of the store |
| BandMapClients.ClientsAreFaithful | src/screens/loggerScreen/useBandMap.js:47-90 | whatever messages reach a client, lost, repeated or reordered, and however often it adopts a snapshot, it always shows what the first events up to its number amount to, and the current view once it has reached the last number |
| BandMapClients.InOrderCatchesUp | src/screens/loggerScreen/useBandMap.js:160-215 | a client that hears every event from its number on, in order, catches up |
| BandMapLag.LagNotice | backend/src/main.rs:1014-1019 | the notice of a subscription that has fallen more than 512 events behind keeps a client faithful if and only if the client does not expect the current number next, or the event of that number is a spot it may not see, a spot it shows already, or the deletion of one it does not show |
| BandMapLag.LagNoticeLosesSpot | backend/src/main.rs:1014-1019 | otherwise, when that event is a spot that is news to the client, the client stays unfaithful whatever events and notices reach it, until it takes a snapshot or another event is about the spot |
| BandMapLag.LagNoticeCanLoseASpot | backend/src/main.rs:1014-1019 | a run in which that happens: 513 reports, none read by the subscription, and a client with a snapshot taken after the 512th |
| BandMapReconcile.SyncIsExact | backend/src/bandmap.rs:375-442 | after reconciling a log its local keys stand exactly for the newest candidates of its unexpired contacts, under the ids they had; every other key keeps its spot unless it had expired |
| BandMapReconcile.SyncAgainIsQuiet | backend/src/bandmap.rs:375-442 | reconciling the same contacts again with the same cutoff causes no event for the log |
| BandMapReconcile.DesiredIsNewest | backend/src/bandmap.rs:381-410 | wanted are exactly the keys with an unexpired candidate, each with its newest, the first of equally new ones |
| BandMapReconcile.PruneByKey | backend/src/bandmap.rs:629-646 | pruning takes away expired spots only |
| BandMapOrder.PruneIsCompleteIff | backend/src/bandmap.rs:629-646 | in every state, pruning leaves no expired spot if and only if no live expired spot stands behind a live unexpired one in the list by time |
| BandMapOrder.PruneIsCompleteInOrderedRuns | backend/src/bandmap.rs:629-646 | as long as reconciling has not taken a spot away, the list by time is in order and pruning leaves no expired spot |
| BandMapHidden.IdLeftBehindHidesExpired | backend/src/bandmap.rs:432-436 | a run from the empty map after which pruning has left an expired spot: three contacts reconciled, the second deleted and reconciled away, a later spot, a prune |
| BandMapHidden.HidingDone | backend/src/bandmap.rs:592-604 | after the first two steps of that run the later spot may be placed second, and halving places it there |
| BandMapOrder.InsertOrdered | backend/src/bandmap.rs:592-604 | inserting at the partition point keeps an ordered list in order |
| BandMapEvents.ReportFollows | backend/src/bandmap.rs:534-590 | a report causes an event exactly as far as clients notice it |
| BandMapEvents.SyncKeeps | backend/src/bandmap.rs:375-442 | reconciling keeps the invariant, and its events carry every view |
| BandMapStore.DesiredFor | backend/src/bandmap.rs:381-410 | the loop that collects the wanted candidates |
| BandMapStore.BandMapSpotStore.PlaceOf | backend/src/bandmap.rs:592-604 | finds a partition point, and on any list the place that halving leads to |
| BandMapStore.BandMapSpotStore.Upsert | backend/src/bandmap.rs:534-590 | the in-place report equals the specification for some place that a partition point may be |
| BandMapStore.BandMapSpotStore.UpsertCandidate | backend/src/bandmap.rs:344-373 | a report from outside: prunes, reports and collects the events |
| BandMapStore.BandMapSpotStore.Prune | backend/src/bandmap.rs:629-646 | the pruning loop equals the specification |
| BandMapStore.BandMapSpotStore.RemoveById | backend/src/bandmap.rs:670-681 | forgets a spot and its key, and emits one event if there was one |
| BandMapStore.BandMapSpotStore.Remove | backend/src/bandmap.rs:648-653 | deletes a spot by id, with the effect that DeleteIsExact states |
| BandMapStore.BandMapSpotStore.RemoveClusterSourceSpot | backend/src/bandmap.rs:655-668 | deletes the spot of a cluster source, with the effect that DeleteClusterIsExact states |
| BandMapStore.BandMapSpotStore.SyncLocalSpotsForLog | backend/src/bandmap.rs:375-442 | the in-place reconciliation equals the specification for some order of keys and some places |
| ContestPresets.Expand | backend/src/contest_rules.rs:1060-1105 | preset expansion terminates for every catalog, by descent on (presets not on the stack, preset names on one path, size); a success names no preset and keeps mappings mappings |
| ContestPresets.ExpandIsFinal | backend/src/contest_rules.rs:1060-1105 | a successful expansion contains no string-valued preset key, and expanding it again changes nothing |
| ContestMeaning.ExpandsIffNotStuck | backend/src/contest_rules.rs:1060-1105 | a document expands if and only if nothing it leads to is stuck: names a preset that is unknown or under expansion already, or one that does not merge with the rest of the mapping |
| ContestMeaning.ExpandKeepsWords | backend/src/contest_rules.rs:1060-1105 | a word of a document stays what it is at every path, whatever the presets on the way say |
| ContestMeaning.PresetWord | backend/src/contest_rules.rs:1072-1086 | at every path that a mapping does not touch, its expansion has the word of the preset it names |
| ContestMeaning.MergeIs | backend/src/contest_rules.rs:941-960 | the law of a deep merge, for every path: the result has the base's value where the overlay does not touch the path, the keyed merge where both have lists and one has ids, a mapping where both have one, and the overlay's value everywhere else |
| ContestMeaning.MergeFailsIff | backend/src/contest_rules.rs:941-960 | two documents fail to merge if and only if at some path two lists of which one has ids do |
| ContestMeaning.EmptyListWins | backend/src/contest_rules.rs:973-1045 | an overlay list without items over a list of items with ids gives the list without items |
| ContestPresets.MergeDepth | backend/src/contest_rules.rs:941-960 | merging adds no more nesting of preset names than its parts have, which is what expansion descends on; what a merge is, MergeIs says |
| ContestPresets.WholeIsShallower | backend/src/contest_rules.rs:1072-1086 | merging a mapping over its expanded preset leaves less nesting of preset names than the mapping had |
| ContestPresets.FewerPresets | backend/src/contest_rules.rs:1060-1105 | being under fewer presets does not change a document that expands |
| ContestLists.MergeKeyedIsExact | backend/src/contest_rules.rs:973-1045 | a successful keyed merge has exactly the base and overlay ids without the removed ones, each once, items not named keep value and order, and the final uniqueness check cannot fail |
| ContestMeaning.KeyedListsMergeIff | backend/src/contest_rules.rs:973-1058 | two lists with ids merge if and only if both have ids throughout, each once, and every overlay item can be taken in: what it removes is there, and it names at most one neighbour, which is there in its turn |
| ContestMeaning.ControlIsLeftOut | backend/src/contest_rules.rs:1017-1020 | the keys that tell a merge what to do with an item are as good as absent from it |
| ContestLists.MergeItemsLookup | backend/src/contest_rules.rs:990-1043 | each overlay id ends up merged, added or gone; every other id keeps its value |
| ContestLists.SettlePlaces | backend/src/contest_rules.rs:1021-1042 | an item goes right before or after the neighbour it names, and otherwise keeps its index or comes last |
| ContestLoader.MergeKeyedCollection | backend/src/contest_rules.rs:973-1045 | the loop over the overlay equals the recursive merge |
| ContestLoader.TakeIn | backend/src/contest_rules.rs:990-1042 | one round of the loop: removal, replacement or insertion in place |
| ContestCompose.ComposesIffNotBlocked | backend/src/contest_rules.rs:854-939 | a node composes if and only if no path of references comes back to a node under resolution, meets an unknown or malformed node, or meets one whose references all have values but do not merge, in order, with one another and the node's own entries |
| ContestCompose.ComposeOverlays | backend/src/contest_rules.rs:854-928 | a node whose references compose is the overlay of their own values and its own entries, in order: the references are those of RefsAre, the overlay that of MergeIs |
| ContestMeaning.RefsAre | backend/src/contest_rules.rs:854-939 | a node is in order exactly if it is a mapping whose profiles are a list of names and whose parent is a name; it refers to its profiles in order, and then to its parent |
| ContestMeaning.OwnWordWins | backend/src/contest_rules.rs:887-890 | what a node says itself at a path is what it has there |
| ContestMeaning.InheritedWord | backend/src/contest_rules.rs:870-886 | what a node does not touch it has from the last of the nodes it refers to that says a word about the path: a parent before profiles, later profiles before earlier ones |
| ContestCompose.CyclesAreRejected | backend/src/contest_rules.rs:930-939 | where a node composes, no path of references from it repeats a node |
| ContestCompose.ReferenceComposes | backend/src/contest_rules.rs:854-928 | a reference that composes by itself has the same value under the node that refers to it, which is what makes remembered values sound |
| ContestCompose.FewerNodes | backend/src/contest_rules.rs:930-939 | the stack only rejects: it never changes a value |
| ContestLoader.ComposeProfile | backend/src/contest_rules.rs:896-928 | the memoised composition of a profile agrees with composing it afresh |
| ContestLoader.ComposeContest | backend/src/contest_rules.rs:854-894 | the memoised composition of a contest agrees with composing it afresh |
| ContestLoader.ComposeContests | backend/src/contest_rules.rs:751-755 | composing all contests with one memory, in any order, gives each the value it has by itself, and fails exactly if one of them fails |
| ContestLoader.ResolveContests | backend/src/contest_rules.rs:751-760 | every contest is its own composition with its presets expanded |
| ScoredCache.LoadedIsScored | backend/src/log_cache.rs:149-426 | the cache and the score tracker together, in every interleaving of loads, upserts, deletes, removals, cancellations and direct writes whose batches meet the condition of BatchKeepsIff: when a log counts as loaded, the tracker's contacts are those of the database and its totals what the scorer computes from nothing on them, non-dupes first |
| ScoredCache.OpenedIsScored | backend/src/log_cache.rs:149-182 | after any run, a log that is in the database can be opened: a load that nothing disturbs leaves a copy that counts as loaded, with the score of its contacts |
| ScoredCache.ForgetsWithCopy | backend/src/log_cache.rs:174-179 | the copy of a log and its score are dropped together |
| ScoredCache.MoveKeeps | backend/src/log_cache.rs:161-182 | every step of the cache keeps the tracker with its copy, also between telling the tracker about a load and installing it |
| ScoredCache.NeverInTheWay | backend/src/log_cache.rs:300-320 | whatever the cache does next there is a change for the tracker that fits it, and a copy that is changed is always known to the tracker |
| LogRevisions.NeverStale | backend/src/log_cache.rs:149-186 | whatever loads, upserts, deletes, removals, cancellations and direct database writes interleave, the cached contacts are the filled contents of the cached revision, so a copy accepted as loaded is never stale; that logs get loaded, LeftAlone says |
| LogRevisions.ActKeeps | backend/src/log_cache.rs:149-426 | every step of every task, and every direct write, keeps the revision invariant |
| LogProgress.LeftAlone | backend/src/log_cache.rs:149-426 | whatever happened before and however far a load, upsert or delete has come: left alone it ends in eight steps at most, with a copy that counts as loaded and holds the filled contents of the database, unless it was too late. It is too late if and only if the database has moved on between the last comparison of revisions and the change of the copy, or before a contact is deleted that is not there |
| LogProgress.GetsLoaded | backend/src/log_cache.rs:149-186 | the holder of a log in the database that finds it not loaded, or loaded, has it ready after at most four steps and then is finished or at its change |
| LogProgress.UndisturbedOperation | backend/src/log_cache.rs:149-426 | a task can enter whenever nobody works on its log, and if nothing disturbs it does what it is for: a load leaves a copy that is ready; an upsert or delete changes the database as asked, the last of several changes to a contact winning, and leaves a copy that is ready; a removal leaves none; only if the log or contact is missing nothing changes |
| LogProgress.NothingIsLost | backend/src/log_cache.rs:235-426 | in every interleaving, an upsert or delete that was not cancelled and is no longer under way has changed the database as asked, or has found nothing to change |
| LogProgress.HowItEnds | backend/src/log_cache.rs:149-426 | how a task can end by itself: with a copy that is ready, with the copy of the revision it made, with none after a removal, or because the log or contact was missing |
| LogProgress.AfterCancelling | backend/src/log_cache.rs:130-147 | a task can be cancelled at any point, and the next one does what it is for |
| LogRevisions.FilledChange | backend/src/log_cache.rs:486-561 | filling in the changed contents equals changing the filled contents |
| LogGate.OneAtATime | backend/src/log_cache.rs:130-147 | in every interleaving of arrival, collection, release and cancellation all live tasks of a log share one gate, and at most one is inside |
| LogGate.GetsIn | backend/src/log_cache.rs:130-147 | a task that has arrived gets inside by its own steps, three at most, if no task of its log is inside |
| LogGate.WaitsForItsLogOnly | backend/src/log_cache.rs:130-147 | a waiting task can go in if and only if no other task of its own log is inside |
| LogGate.CollectionIsComplete | backend/src/log_cache.rs:137-137 | after a collection the table lists exactly the logs for which a task holds the gate |
| LogGate.ActKeeps | backend/src/log_cache.rs:130-147 | every step keeps the gate table right |
| LogOrder.OneDisplay | backend/src/log_cache.rs:748-760 | there is only one way to display a set of contacts with distinct ids |
| LogOrder.NewestFirst | backend/src/log_cache.rs:748-760 | a displayed log shows each contact it holds, the newest first, and of two at one time the one with the larger id |
| LogOrder.BatchLeaves | backend/src/log_cache.rs:704-715 | a batch leaves the last version of each contact in it, and the contacts it does not mention |
| LogOrder.DedupedBatch | backend/src/log_cache.rs:278-286 | keeping only the last change of each id leaves each id once and the same outcome |
| LogCache.CachedLog.Upsert | backend/src/log_cache.rs:595-626 | by the fast path or the slow one, the copy shows exactly the updated contacts in display order with exact indexes |
| LogCache.CopiesAgree | backend/src/log_cache.rs:564-593 | two copies with the same contacts have the same order, positions and callsign id sets, so an updated copy equals a fresh one |
| LogCache.CachedLog.ApplyUpsertedContacts | backend/src/log_cache.rs:595-626 | both paths display the updated contacts; without the slow path the indexes stay exact |
| LogCache.CachedLog.InsertNewContactSorted | backend/src/log_cache.rs:633-643 | a new contact goes to its place, and positions and index stay exact |
| LogCache.CachedLog.SortedInsertPosition | backend/src/log_cache.rs:645-663 | the place of a new contact in the descending order |
| LogCache.CachedLog.RefreshContactPositionsFrom | backend/src/log_cache.rs:665-671 | restores exact positions behind an insertion |
| LogCache.CachedLog.RebuildIndexes | backend/src/log_cache.rs:576-593 | rebuilds exact positions and callsign ids |
| LogCache.CachedLog.MergeContact | backend/src/log_cache.rs:704-715 | replaces the contact with the same id or appends |
| LogCache.CachedLog.Deduplicated | backend/src/log_cache.rs:278-286 | the loop that keeps the last contact of each id |
| LogCache.CachedLog.DeleteContact | backend/src/log_cache.rs:397-420 | removes exactly one contact and rebuilds the indexes |
| LogCache.CachedLog.ContactById | backend/src/log_cache.rs:687-690 | finds a contact by id if and only if the log has it |
| LogCache.CachedLog.MatchingContactIdsForPrefix | backend/src/log_cache.rs:692-701 | walking the ordered index from the prefix to the first callsign without it finds all ids under matching callsigns |
| LogCache.CachedLog.ContactsDisplayPage | backend/src/log_cache.rs:188-233 | a page by callsign prefix is the naive result: filter in display order, skip, take |
| LogPages.PrefixRun | backend/src/log_cache.rs:692-701 | strings with one prefix form one contiguous run of the lexicographic order, from the prefix on |
| LogPages.PageIs | backend/src/log_cache.rs:188-233 | a page is made of the contacts whose callsign begins with the prefix, in display order, from the offset on and up to the limit |
| LogPages.PositionsList | backend/src/log_cache.rs:210-227 | listing the matching positions in increasing order lists the matching contacts |
| AdifReading.ReadsExactly | backend/src/adif.rs:117-235 | the parser accepts a text if and only if it is made of words, tags of fields with their values, and tags that end a record or the header; and however it is taken apart, its records are those between the ends that have a field (and one that the end of the file cuts short), each on the line of its first field, with the last trimmed value of each normalized name |
| AdifReading.ContentsAre | backend/src/adif.rs:194-211 | of several fields with one normalized name in a record the last one counts, with its value trimmed |
| AdifReading.FailsThere | backend/src/adif.rs:117-228 | a file that is in order up to some tag is refused with the line of that tag and the problem of the tag or of the value behind it |
| AdifMeaning.FieldTagIs | backend/src/adif.rs:230-235 | a tag gives a name and a length, and perhaps a data type behind them that does not matter; a tag without a colon, or with no length behind it, is none |
| AdifMeaning.NameIs | backend/src/adif.rs:463-472 | a name is trimmed, its letters count as capitals, and what is no letter, digit or underscore becomes an underscore |
| AdifMeaning.OneLineIs | backend/src/adif.rs:457-461 | each line end of any kind becomes one space, and nothing else changes |
| AdifMeaning.EncodeDecode | backend/src/adif.rs:151-152 | only the encoding of a text is decoded, as section 3 of RFC 3629 asks |
| AdifRoundTrip.RoundTrip | backend/src/adif.rs:117-228 | parsing a rendered log gives one record per contact, in order, record i on line 3 + i, with exactly the fields of the contact up to line ends and surrounding white space, whatever the values contain |
| AdifRoundTrip.TrimmedSurvives | backend/src/adif.rs:457-461 | a trimmed value survives but for line ends, and entirely if it has none |
| AdifRoundTrip.LineCounts | backend/src/adif.rs:117-228 | the line counter grows by exactly the newlines read |
| AdifRoundTrip.FieldStep | backend/src/adif.rs:457-461 | a rendered field is read back with its name, its value and its line |
| AdifRoundTrip.TagParses | backend/src/adif.rs:230-235 | the tag of a rendered field parses to its name and length |
| AdifRoundTrip.HeaderStep | backend/src/adif.rs:368-374 | the header leaves the parser on line 3, between records |
| AdifRoundTrip.RecordsStep | backend/src/adif.rs:376-381 | rendered records are read back one after the other |
| AdifFile.RenderLog | backend/src/adif.rs:368-384 | the exporter renders the header and every record, its fields each once, the preferred ones first in their order and the others by name |
| AdifFile.OrderedFields | backend/src/adif.rs:443-455 | lists every field once: the preferred ones in their order, then the others by name |
| AdifFile.ParseFile | backend/src/adif.rs:117-228 | the byte loop of the parser equals the specification |
| AdifFile.FindTagEnd | backend/src/adif.rs:140-152 | the inner loop finds the end of the tag and counts the lines passed |
| AdifFile.ReadTag | backend/src/adif.rs:157-213 | takes in one tag as the specification does |
| AdifFile.WriteAndRead | backend/src/adif.rs:117-384 | writing and reading back, end to end |
| Utf8.DecodeEncode | backend/src/adif.rs:151-152 | decoding what was encoded gives it back |
| QsoTime.CalendarWalk | backend/src/qso_time.rs:93-105 | day 0 is 1 January 1970, and the next day number is always the next day of the Gregorian calendar, in both directions without end |
| QsoTime.DatesAndDays | backend/src/qso_time.rs:65-105 | a date has a day number if and only if the calendar has it, and the two conversions are inverse to each other |
| QsoTime.FromDays | backend/src/qso_time.rs:93-105 | the conversion from days finds era, year and day of the year |
| QsoTime.ToDays | backend/src/qso_time.rs:65-91 | the conversion to days inverts that |
| QsoTime.YearOfEra | backend/src/qso_time.rs:97-97 | the division-heavy year formula is right on every day of an era |
| QsoTime.EpochRoundTrip | backend/src/qso_time.rs:9-63 | the text of every epoch from 1970 through the end of 9999 is read back as that epoch, and later ones are rejected |
| QsoTime.EpochIs | backend/src/qso_time.rs:9-34 | a date and time are accepted if and only if the calendar has the date and the day the time, with or without seconds and with white space around it, and the epoch is their number of seconds since 1970 |
| QsoTime.TextRoundTripBack | backend/src/qso_time.rs:9-63 | an accepted date and time with seconds, from 1970 on, is printed as it was written |
| QsoTime.YearOfDays | backend/src/qso_time.rs:93-105 | a day lies in a year or later exactly if it is not before that year began |

## Left out

- RunTotals: covers the runs whose batches meet the condition of BatchKeepsIff; RunKeepsIff shows that the invariant breaks in all others. The totals of a log that has been emptied are those of EmptiedLogTotals.
- RunOrderIndependent: covers the same runs as RunTotals.
- UpsertKeeps: covers the same batches as RunTotals, as do StepKeeps, RunKeeps and LoadedIsScored.
- BatchKeepsIff: says nothing of bonus keys worth 0 or less, whose bookings may cancel, and neither does RunKeepsIff. The condition is that of the searches in each removal, which depend on the dupes that started to count before; Undisturbed can be seen before the batch, but is only sufficient.
- DriftStays: is about multiplier and bonus keys; what becomes of a score lost for a dupe key is not stated.
- OnContactsUpserted: the branch for a changed scoring module is not modelled; after a log has been loaded its module does not change, so runs do not reach it.
- OnContactDeleted: the branches for a changed scoring module and for a log without a state are not modelled; NeverInTheWay shows that a cached log has a state.
- RoundTrip: field maps are taken as the exporter has them after renaming and conversion of single fields; lengths must fit a machine word.
- NeverStale: contacts are compared without the score marks that the processors write into them, and filling in is taken as idempotent.
- CachedAllowedIsJustified: passwords and keys are compared as pairs; that a keyed hash of 32 bytes stands for the pair is left to cryptography.
- WaitedAnswerIsJustified: a runtime that shuts down in the middle of a check, and so closes its channel, is not modelled.
- ComposesIffNotBlocked: which of several errors is reported is not modelled, nor are YAML tags, which the library sees through.
- Expand: the position of a key within a mapping is not modelled, so neither is which failing entry is reported first.
- ClientsAreFaithful: the client keeps spots as they are sent; its normalization of fields, which drops spots without a frequency, and its sorted list are not modelled.
- LagNotice: the channel hands its events to a subscription in the order in which the store numbered them.
- LoadedIsScored: one set of rules, uncapped, reads all logs; a change of a contest's rules while its log is cached is not modelled.
- OneAtATime: that an asynchronous mutex lets tasks in one at a time is taken from the runtime.
- Scoring rule predicates and derived fields (areas, geography, grid distance, time bonuses) are arbitrary functions of a contact; a rule that names a score mark as a field is not modelled.
- Deleting a contact whose id has moved to another log shows in the model as a direct write to that log.
- Wrap-around of 64-bit counters, ids and score arithmetic, and of the 32-bit year, is not modelled: integers are unbounded.
- HTTP, websockets, the SQLite worker, YAML and file reading, contest validation, password hashing, base64 and header decoding are input and output, or calls into code not seen here.
- Mapping of imported fields, conversion of frequencies and modes, Cabrillo export, callsign and country lookup, statistics and the user interface would add cases but no depth.

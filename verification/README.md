# NEO watch backend: a Dafny model

This project models the core of a near-Earth-object (NEO) watch service. Its parts are:

- **Risk scoring engine.** A snapshot of an asteroid from the provider is scored 0–100 and given a level. The score adds four tiered factors: the hazard flag, the closest miss distance, the average diameter and the velocity. A detailed analysis also reports the factors of the closest approach.
- **Per-user watchlist store.** Records can be added, listed, removed and have their alert settings patched. Ownership checks answer 404, and each (user, asteroid) pair is unique.
- **Per-user alert store.** Alerts can be listed (newest first, at most 100, optionally unread only), marked read one at a time or all together, and deleted.
- **Periodic check.** Every watched record is re-fetched and re-scored. Up to two alerts are written for it (a risk increase and a close approach). The record is then saved. Each record runs inside its own failure boundary.
- **Chat relay.** Per-asteroid rooms; a join replays the 50 most recent messages, oldest first. A send persists the message and then broadcasts it to the room. A refused send reaches only the sender, as `message-error`.
- **Feed handlers.** Every object the provider returns gets its risk analysis attached. Nothing else changes.
- **Tutorial progress reducer.** It tracks the active tutorial, the current step and the list of completed tutorials.

All files are plain modules and are verified together:

| file | module | models |
|---|---|---|
| wrappers.dfy | Wrappers | `Option`, `Result`, `Min` |
| listing.dfy | Listing | the document-store queries the handlers use: filter, sort by a key descending, limit, reverse, `findOne`, delete one, count |
| risk.dfy | Risk | `calculateRiskScore`, `getDetailedRiskAnalysis` |
| models.dfy | Models | the three schemas, their defaults and required fields, and the HTTP error outcomes |
| watchlist.dfy | Watchlist | the watchlist controller |
| alerts.dfy | Alerts | the alert controller, plus `Alert.create` |
| scheduler.dfy | Scheduler | `checkWatchedAsteroids` |
| chat.dfy | Chat | the socket handlers |
| feed.dfy | Feed | the asteroid controller |
| tutorial.dfy | Tutorial | the tutorial context |

Modelling choices:

- **Numbers.** The provider's numbers (AU, metres, km/s) are `real`. The code adds and halves them, compares them with constants and with each other (the closest-approach `reduce`), and compares the miss distance with the record's stored threshold. IEEE rounding of the diameter average is not modelled.
- **Time.** Timestamps are integers. A handler reads the time once, passed in as `now`. A periodic run reads it at every write: its `Clock` gives the time of each alert write (indexed by the id the alert receives) and of each record's check (indexed by the record's id).
- **Record ids.** Ids come from a counter in each store.
- **External calls.** The provider is a function parameter that may fail. Storage faults in the periodic check are parameters too: which alert writes and which saves fail, and whether loading the records fails. So is the chat store's write failure.
- **Alert messages.** Alert text is kept as the values the templates interpolate (`AlertMessage`), not as rendered strings.

Behaviour worth knowing before reading the table:

- Watching an asteroid twice answers 400.
- Every chat room is `asteroid-<id>`; there is no shared room.
- The chat service itself validates nothing. Empty and oversized messages are refused by the message schema (`required`, `maxlength: 500`), and that refusal reaches the sender as `message-error`.
- The 500 limit counts UTF-16 code units (`Models.Utf16Length`).

## Model

| member | source | states |
|---|---|---|
| Risk.HazardPoints | backend/src/services/riskAnalysis.js:9-12 | the hazard factor is worth 0 or 40 points |
| Risk.LevelOf | backend/src/services/riskAnalysis.js:84-94 | CRITICAL exactly from 75, HIGH exactly on [50, 75), MEDIUM exactly on [25, 50), LOW exactly below 25 |
| Risk.DistancePoints | backend/src/services/riskAnalysis.js:31-39 | the distance factor is one of 5, 10, 20 or 30 points |
| Risk.DiameterPoints | backend/src/services/riskAnalysis.js:53-61 | the diameter factor is one of 5, 10, 15 or 20 points |
| Risk.VelocityPoints | backend/src/services/riskAnalysis.js:73-81 | the velocity factor is one of 3, 5, 7 or 10 points |
| Risk.ClosestIndex | backend/src/services/riskAnalysis.js:18-22 | the record the `reduce` keeps is a minimum of the miss distances, and it is the first minimum: every earlier record is strictly farther |
| Risk.FindClosest | backend/src/services/riskAnalysis.js:18-22 | the `reduce` as a loop: it finds the first minimum, the same record the left fold `ClosestIndex` keeps |
| Risk.FirstClosestIsUnique | backend/src/services/riskAnalysis.js:112-116 | the first-minimum property picks exactly one record, so the closest-approach lookups in both functions agree |
| Risk.ClosestIndexReadsOnlyDistances | backend/src/services/riskAnalysis.js:18-22 | the closest record depends on the miss distances alone |
| Risk.DistanceContribution | backend/src/services/riskAnalysis.js:16-40 | the distance factor adds 0 points exactly when there are no approach records; otherwise it adds the tier (5, 10, 20 or 30) of the closest record's miss distance |
| Risk.DiameterContribution | backend/src/services/riskAnalysis.js:43-62 | the diameter factor adds 0 points exactly when there is no metre diameter; otherwise it adds the tier (5, 10, 15 or 20) of the min/max average |
| Risk.VelocityContribution | backend/src/services/riskAnalysis.js:65-82 | the velocity factor adds 0 points exactly when there are no approach records; otherwise it adds the tier (3, 5, 7 or 10) of the first record's velocity |
| Risk.CalculateRiskScore | backend/src/services/riskAnalysis.js:6-100 | the score is the sum of the four factors and lies in [0, 100], so the cap at 100 never changes it; the level, taken from the uncapped sum, is the tier of the returned score |
| Risk.GetDetailedRiskAnalysis | backend/src/services/riskAnalysis.js:107-138 | score and level are those of `calculateRiskScore`; the hazard flag is copied; miss distance, velocity and date come from the first closest record and are present exactly when there are approach records; the diameter is the min/max average, present exactly when a metre diameter is |
| Risk.HazardAddsForty | backend/src/services/riskAnalysis.js:10-12 | all else equal, a hazardous object scores exactly 40 more |
| Risk.NoApproachesScoresOnlyHazardAndDiameter | backend/src/services/riskAnalysis.js:16-82 | with no approach records only hazard and diameter score, and the distance and velocity factors are absent |
| Risk.NoDiameterScoresNothingForSize | backend/src/services/riskAnalysis.js:43-62 | with no metre diameter the size adds nothing and the diameter factor is absent |
| Risk.VelocityReadsOnlyFirstRecord | backend/src/services/riskAnalysis.js:65-66 | the velocity points read the first record only: later records' velocities never change the score |
| Risk.VelocityFactorDiffersFromScoredVelocity | backend/src/services/riskAnalysis.js:132-134 | a concrete object whose scored velocity (35 km/s, first record) differs from its reported velocity (5 km/s, closest record) |
| Risk.TierBoundaries | backend/src/services/riskAnalysis.js:31-94 | distance bounds are inclusive; diameter, velocity and level bounds sit exactly where the code puts them |
| Risk.TiersAreMonotone | backend/src/services/riskAnalysis.js:31-81 | closer, larger and faster objects never score fewer points |
| Risk.ScenarioMaximalRisk | backend/src/services/riskAnalysis.js:6-100 | a hazardous, 0.03 AU, 1200 m, 35 km/s object scores 100, CRITICAL |
| Risk.ScenarioLowRisk | backend/src/services/riskAnalysis.js:6-100 | a harmless, 0.15 AU, 80 m, 8 km/s object scores 18, LOW |
| Models.CreateWatched | backend/src/models/WatchedAsteroid.js:3-48 | a record is created exactly when the required strings are present; it is schema-valid, named after the snapshot, scored by the detailed analysis, notifies on approach within 0.05 AU by default and is stamped with the creation time |
| Models.WatchedValid | backend/src/models/WatchedAsteroid.js:3-27 | the schema's checks on a watched record: asteroid id and name present, risk score within [0, 100] |
| Models.NewAlert | backend/src/models/Alert.js:3-39 | a created alert copies every given field, defaults severity to INFO, starts unread, and is schema-valid exactly when its draft is |
| Models.DraftValid | backend/src/models/Alert.js:3-25 | the schema's checks on an alert: asteroid id, name and message present; type and severity are enumerations by construction |
| Models.Utf16Length | backend/src/models/ChatMessage.js:17-21 | the length the schema limits lies between the character count and twice it, and equals the character count for text without astral characters |
| Models.ChatLengthBoundary | backend/src/models/ChatMessage.js:17-21 | a message of 501 ordinary characters is refused, and one of 1 to 500 is accepted |
| Models.EmptyChatMessageRejected | backend/src/models/ChatMessage.js:17-21 | an empty message is refused whatever the other fields |
| Models.ChatDraftValid | backend/src/models/ChatMessage.js:3-21 | the schema's checks on a chat message: user id, user name, asteroid id and text present, text at most 500 UTF-16 code units |
| Listing.SortNewestFirst | backend/src/controllers/watchlistController.js:12-13 | the sorted list is a permutation of its input, largest key first |
| Listing.Newest | backend/src/controllers/alertController.js:16-18 | find, sort and limit return min(limit, matches) matching records, newest first, and no matching record left out is newer than one returned |
| Listing.RecentOldestFirst | backend/src/services/socketService.js:17-22 | the same records, handed back oldest first |
| Listing.IndexWhere | backend/src/controllers/watchlistController.js:78-81 | `findOne` finds nothing exactly when no record matches, and otherwise finds the first match |
| Listing.FilterKeepsOrder | backend/src/controllers/alertController.js:16 | `find` keeps two matching records in their store order |
| Watchlist.GetWatchlist | backend/src/controllers/watchlistController.js:10-20 | exactly the caller's records, each once, most recently added first |
| Watchlist.AddToWatchlist | backend/src/controllers/watchlistController.js:26-68 | a missing id or an already watched pair is a 400 and changes nothing; success happens exactly when the id is new for the caller and the provider answers with a named object; the new record is appended with the analysed score and level and the default settings, its id is pushed onto the caller's array only, and the store invariant holds afterwards |
| Watchlist.RemoveFromWatchlist | backend/src/controllers/watchlistController.js:74-99 | a 404 exactly when the caller does not own the record; otherwise exactly that record is deleted and its id pulled from the caller's array, other users' arrays are untouched, and the invariant holds afterwards |
| Watchlist.RemovalKeepsOthers | backend/src/controllers/watchlistController.js:87 | deleting one record keeps every record with another id |
| Watchlist.UpdateAlertSettings | backend/src/controllers/watchlistController.js:105-134 | a 404 exactly when the caller does not own the record; a field the schema cannot cast is a 500 and stores nothing; otherwise only that record's settings change: a field left out keeps its old value, a `null` is stored as null, any other value is stored |
| Watchlist.SecondAddIsRejected | backend/src/controllers/watchlistController.js:35-42 | watching the same asteroid again is a 400 |
| Watchlist.RemoveOfForeignRecordIsNotFound | backend/src/controllers/watchlistController.js:78-85 | removing an absent record, or another user's, is a 404 |
| Watchlist.AddThenRemoveRestores | backend/src/controllers/watchlistController.js:45-92 | adding and then removing the new record restores the records and the caller's array |
| Watchlist.RemoveAppended | backend/src/controllers/watchlistController.js:78-92 | removing the record just appended for a user deletes exactly it and pulls exactly its id, so the records and the user's array return to what they were |
| Watchlist.EmptyPatchChangesNothing | backend/src/controllers/watchlistController.js:119-125 | a settings update naming no field leaves the store as it was |
| Watchlist.PatchIsIdempotent | backend/src/controllers/watchlistController.js:119-127 | applying a settings patch twice equals applying it once |
| Alerts.CreateAlert | backend/src/models/Alert.js:3-39 | a write succeeds exactly when no fault occurs and the required fields are present; it appends one alert with a fresh id and keeps the store invariant |
| Alerts.GetAlerts | backend/src/controllers/alertController.js:7-25 | only the caller's alerts, only unread ones exactly when `unread` is the string "true"; at most 100, newest first, and no matching alert left out is newer than one returned |
| Alerts.LaterAlertListedFirst | backend/src/controllers/alertController.js:16-18 | of two listed alerts with different times, the later one comes first |
| Alerts.MarkAsRead | backend/src/controllers/alertController.js:31-52 | a 404 exactly when the caller does not own the alert; otherwise that alert's read flag is set and nothing else changes |
| Alerts.DeleteAlert | backend/src/controllers/alertController.js:58-78 | a 404 exactly when the caller does not own the alert; otherwise exactly that alert is removed |
| Alerts.DeletionKeepsOthers | backend/src/controllers/alertController.js:71 | deleting one alert keeps every alert with another id and the invariant |
| Alerts.MarkAllAsRead | backend/src/controllers/alertController.js:84-96 | every alert of the caller is read afterwards, only read flags change, and other users' alerts are untouched |
| Alerts.MarkAsReadIsIdempotent | backend/src/controllers/alertController.js:44-45 | marking an alert read twice equals marking it once |
| Alerts.MarkAllAsReadIsIdempotent | backend/src/controllers/alertController.js:86-89 | a second mark-all changes nothing |
| Alerts.UnreadListingEmptyAfterMarkAll | backend/src/controllers/alertController.js:86-89 | right after mark-all, the caller's unread listing is empty |
| Scheduler.AnalysedDrafts | backend/src/utils/scheduler.js:29-53 | one check writes at most two alerts, each of type RISK_INCREASE or CLOSE_APPROACH and each carrying the record's user, asteroid id and name |
| Scheduler.RiskIncreased | backend/src/utils/scheduler.js:30 | the risk trigger: the new score exceeds the stored one by strictly more than ten |
| Scheduler.CloseApproachDue | backend/src/utils/scheduler.js:42-43 | the close-approach trigger: flag true, miss distance truthy, and within the stored threshold |
| Scheduler.WrittenDrafts | backend/src/utils/scheduler.js:17-53 | a failed lookup writes nothing; otherwise at most two alerts, all about the record checked |
| Scheduler.WriteStep | backend/src/utils/scheduler.js:30-52 | a guarded `Alert.create` writes nothing unless due; a due write either appends exactly the stamped alert or fails |
| Scheduler.StampIsChronological | backend/src/models/Alert.js:35-38 | with a clock that moves forward, each alert of a batch is stamped later than every alert logged before it |
| Scheduler.CheckAnalysed | backend/src/utils/scheduler.js:20-58 | after the lookup, the alert log grows by exactly the written alerts in order; the check fails exactly when a due write or the save throws; only a check that does not fail replaces score, level, snapshot and check time |
| Scheduler.CloseAndSave | backend/src/utils/scheduler.js:42-55 | after a risk write that did not throw: the log grows by the close-approach alert exactly when it is due and its write succeeds; the record is saved unless that write or the save throws |
| Scheduler.CheckItem | backend/src/utils/scheduler.js:17-58 | the whole per-record `try`: its writes, its failure and the stored record, as above, with a failed lookup caught before anything is written |
| Scheduler.RiskAlertWrittenIff | backend/src/utils/scheduler.js:23-39 | a risk alert is written exactly when the new score exceeds the stored one by more than ten and the write does not fault; its severity is CRITICAL exactly when the new level is |
| Scheduler.CloseAlertWrittenIff | backend/src/utils/scheduler.js:42-52 | a close-approach alert is written exactly when no risk write threw first, the stored flag is true, the miss distance is present, non-zero and within the stored threshold (a null threshold reads as 0), and the write does not fault; it carries WARNING |
| Scheduler.NullSettingsSilenceCloseApproach | backend/src/utils/scheduler.js:42-43 | a stored null flag, or a stored null threshold against a positive miss distance, keeps the close-approach alert from being due |
| Scheduler.NoRepeatedRiskAlert | backend/src/utils/scheduler.js:23-30 | because the previous score is read before it is overwritten and the new one is saved, a second check against the same data raises no second risk alert |
| Scheduler.AllDrafts | backend/src/utils/scheduler.js:16-59 | a run writes at most two alerts per record, each belonging to a record of the run |
| Scheduler.CountFailures | backend/src/utils/scheduler.js:56-58 | the number of records caught is at most the number of records, and zero exactly when none fails |
| Scheduler.RunItems | backend/src/utils/scheduler.js:16-59 | the loop checks every record in store order: each record ends up as its own check leaves it, stamped with its own check time, whatever happens to the others; failures are counted; the alerts are exactly the records' writes in order, each stamped with the time of its own write; the alert store invariant is kept |
| Scheduler.CheckWatchedAsteroids | backend/src/utils/scheduler.js:10-65 | a failed load ends the run with nothing changed; otherwise every record is processed and replaced by its checked version, the id arrays are untouched, and both stores keep their invariants |
| Scheduler.RunAlertsAreChronological | backend/src/utils/scheduler.js:16-59 | with a clock that moves forward, the alerts a run writes carry strictly increasing times in write order, each later than every earlier alert |
| Scheduler.StoredKeepsIdentity | backend/src/utils/scheduler.js:22-27 | a check never changes a record's id, owner, asteroid, name, settings or creation time, and keeps a valid record valid |
| Scheduler.StoredKeepsValid | backend/src/utils/scheduler.js:22-55 | replacing every record by its checked version keeps the watch store invariant, including pair uniqueness |
| Scheduler.FailingRecordIsIsolated | backend/src/utils/scheduler.js:16-59 | with three records whose middle lookup fails, that record stays as it was and is the only failure, while its neighbours are refreshed |
| Scheduler.LookupFailsPerRecord | backend/src/utils/scheduler.js:17-20 | every record makes its own lookup: one record's call can fail, leaving it unchanged and writing nothing, while another record, of the same asteroid or not, is refreshed in the same run |
| Scheduler.FailingRecordWritesNothing | backend/src/utils/scheduler.js:17-20 | the record whose lookup fails contributes no alert, and the others' alerts keep their order |
| Chat.RoomNameInjective | backend/src/services/socketService.js:12 | different asteroids never share a room |
| Chat.RoomName | backend/src/services/socketService.js:12 | the room of an asteroid is `asteroid-` followed by its id |
| Chat.History | backend/src/services/socketService.js:17-22 | the replay holds at most 50 of the asteroid's messages, oldest first, and no message of that asteroid left out is newer than one replayed |
| Chat.JoinAsteroid | backend/src/services/socketService.js:11-26 | the connection is added to that room and to no other; unless the history read fails, it alone receives the history; the log is untouched |
| Chat.LeaveAsteroid | backend/src/services/socketService.js:29-32 | the connection leaves that room and no other |
| Chat.SendMessage | backend/src/services/socketService.js:35-60 | an accepted message is appended once with a fresh id and the sending time, then broadcast to exactly the members of its asteroid's room; a refused or failed one changes nothing and reaches only the sender as `message-error` |
| Chat.Disconnect | backend/src/services/socketService.js:62-64 | a closed connection is in no room afterwards; all other memberships stay |
| Chat.SendKeepsValid | backend/src/services/socketService.js:40-45 | a send keeps message ids unique and every stored message within the schema: user name, asteroid id and text present, text at most 500 code units |
| Chat.MessageValid | backend/src/models/ChatMessage.js:3-21 | what the schema demands of a stored message |
| Chat.JoinThenLeave | backend/src/services/socketService.js:11-32 | joining and then leaving restores every room's membership, apart from the connection itself |
| Chat.LeaveIsIdempotent | backend/src/services/socketService.js:29-32 | leaving twice equals leaving once |
| Chat.NewestMessageEndsHistory | backend/src/services/socketService.js:17-22 | a message newer than all others is the last one replayed for its asteroid |
| Chat.SentMessageIsReplayed | backend/src/services/socketService.js:17-55 | a message sent after all stored ones is replayed, last, to the next connection that joins its room |
| Chat.OversizedMessageIsRefused | backend/src/services/socketService.js:56-59 | a 501-character message is stored nowhere and reaches only the sender, as `message-error` |
| Chat.BroadcastStaysInRoom | backend/src/services/socketService.js:48-55 | a member of another asteroid's room who is not in this one does not receive the broadcast |
| Feed.AnnotateAll | backend/src/controllers/asteroidController.js:76-79 | the list keeps its length and order; every object is passed through unchanged, with its own detailed analysis attached |
| Feed.StripAnnotateAll | backend/src/controllers/asteroidController.js:24-27 | removing the added field gives back exactly the provider's list |
| Feed.AnnotateBuckets | backend/src/controllers/asteroidController.js:23-28 | the same date keys, each bucket annotated in place |
| Feed.AnnotateFeed | backend/src/controllers/asteroidController.js:20-28 | the element count and date keys are kept; every bucket keeps its length, and every object is passed through with its own analysis |
| Feed.StripAnnotateFeed | backend/src/controllers/asteroidController.js:20-28 | removing the added field from every bucket gives back exactly the provider's feed |
| Feed.ConsistentReportsRiskScore | backend/src/controllers/asteroidController.js:26 | the attached analysis reports the object's risk score, level and hazard flag |
| Feed.DateOrToday | backend/src/controllers/asteroidController.js:13-15 | an absent or empty date means today, and any other date is used as given |
| Feed.GetAsteroidFeed | backend/src/controllers/asteroidController.js:8-35 | the provider is asked for the given dates, or today when a date is missing; its failure is a 500; otherwise its feed comes back annotated, and stripping the annotations gives exactly the provider's answer |
| Feed.GetAsteroidById | backend/src/controllers/asteroidController.js:41-58 | the looked-up object with its analysis attached, or a 500 exactly when the lookup fails |
| Feed.BrowseAsteroids | backend/src/controllers/asteroidController.js:64-87 | the provider is asked for the given page and size; a failure is a 500; otherwise the page information is passed through and every object is annotated |
| Feed.BrowseDefaults | backend/src/controllers/asteroidController.js:66-71 | a browse without parameters asks for page 0 with 20 objects |
| Feed.FeedDefaultsToToday | backend/src/controllers/asteroidController.js:13-17 | a feed without dates asks for today alone, and an empty date is treated as a missing one |
| Tutorial.StartTutorial | frontend/src/contexts/TutorialContext.jsx:26-29 | the named tutorial becomes active at step 0, and the completed list is kept |
| Tutorial.NextStep | frontend/src/contexts/TutorialContext.jsx:31-33 | the step advances by exactly one, and nothing else changes |
| Tutorial.PrevStep | frontend/src/contexts/TutorialContext.jsx:35-37 | the step goes back by one but never below 0 |
| Tutorial.SkipTutorial | frontend/src/contexts/TutorialContext.jsx:39-42 | no tutorial is active and the step is 0; the completed list is kept |
| Tutorial.CompleteTutorial | frontend/src/contexts/TutorialContext.jsx:44-52 | a tutorial counts as completed afterwards exactly when it did before or was the running one; the list grows by at most one and never gains a duplicate; the active tutorial is cleared and the step reset |
| Tutorial.ResetTutorials | frontend/src/contexts/TutorialContext.jsx:58-61 | no tutorial counts as completed afterwards; the active tutorial and step are kept |
| Tutorial.IsTutorialCompleted | frontend/src/contexts/TutorialContext.jsx:54-56 | a tutorial counts as completed exactly when its name is in the completed list |
| Tutorial.PrevUndoesNext | frontend/src/contexts/TutorialContext.jsx:31-37 | going forward and then back returns to the same state |
| Tutorial.NextUndoesPrev | frontend/src/contexts/TutorialContext.jsx:31-37 | going back and then forward returns to the same state when the step was above 0 |
| Tutorial.CompleteIsIdempotent | frontend/src/contexts/TutorialContext.jsx:44-52 | completing twice equals completing once |
| Tutorial.StartThenCompleteRecords | frontend/src/contexts/TutorialContext.jsx:26-52 | starting and completing a named tutorial records it exactly once |
| Tutorial.EmptyNameIsNeverRecorded | frontend/src/contexts/TutorialContext.jsx:45 | a tutorial with an empty name is falsy and is never recorded |
| Tutorial.Run | frontend/src/contexts/TutorialContext.jsx:14-61 | any sequence of actions keeps the step non-negative and the completed list free of duplicates |
| Tutorial.ReachableStatesAreValid | frontend/src/contexts/TutorialContext.jsx:14-61 | every state reachable from the initial one is valid |

## Left out

- The provider's HTTP client (`nasaService`) is not modelled. It appears only as a function parameter that may fail.
- Cron registration (`initScheduler`), logging, Express routing and authentication are not modelled: they are wiring, not logic.
- `populate` and the `User` model internals are not modelled. A user's `watchlist` array is a map from user to id list.
- Concurrency between handlers and the scheduler is not modelled. Every operation is atomic.
- Risk.CalculateRiskScore: `parseFloat` of a malformed number (NaN) is not modelled, because parsed numbers are reals. NaN would make every `<=` comparison false and fall through to the lowest tier.
- Listing.SortNewestFirst: the store's order among records with equal timestamps is unspecified. The model fixes one order (a stable insertion sort), and no property depends on it.
- Models.NewAlert: message text rendering (`toFixed(4)`, template strings) is kept as the interpolated values, not as text.
- Watchlist.AddToWatchlist: a storage fault during the create or the `$push` is not modelled. Only provider failures and schema validation fail the request.
- Watchlist.GetWatchlist: the 500 answered when the `find` throws (a storage fault) is not modelled; listing always succeeds.
- Watchlist.RemoveFromWatchlist: the 500 answered when the `findOne` throws is not modelled. That covers a storage fault, and also a malformed `_id`, whose cast error reaches the same `catch` and answers 500, not 404. Record ids are `nat`, so a malformed id is outside the model's input type. A storage fault between the delete and the `$pull` is not modelled either.
- Watchlist.UpdateAlertSettings: a malformed record id (a cast error, answered with 500) is outside the model's input type, because record ids are `nat`; storage faults (500) are not modelled. Which raw JSON values the schema casts, and to what, is not modelled: a patch field arrives already classified as left out, null, a cast value or uncastable.
- Alerts.MarkAsRead: storage faults in the alert handlers (500) are not modelled.
- Scheduler.RunItems: the clock is a parameter. The model does not assume it moves forward, except in the chronology lemmas.
- Scheduler.CheckWatchedAsteroids: a record whose owner no longer exists has `userId` set to null by `populate`. That makes `Alert.create` fail, and it makes `watchedAsteroid.save()` fail the schema's `required` check on `userId`, so such a record is never refreshed and counts as a failure on every run. The model keeps the stored owner, because the user collection is not part of this model; the same outcome is reachable only through the fault parameters (`saveFails` for that record's id).
- Chat.SendMessage: a `userId` that is not a valid object id fails the schema cast. The model represents a user id as either present or missing.
- Chat.JoinAsteroid: the `populate('userId', 'name')` on the replayed messages is not modelled.
- Chat.Disconnect: the handler only logs. Removing the connection from its rooms is the socket library's behaviour, modelled here.
- Feed.BrowseAsteroids: `parseInt` of a non-numeric page or size (NaN) is not modelled. Present values arrive already parsed.
- Tutorial.Run: restoring the completed list from `localStorage` is not modelled, and neither is writing it back. A stored list with duplicates would start the reducer outside its invariant.
- The sound context, the 3D and canvas views, the orbit calculations and the page components are presentation and are not part of this model.

# A verified model of CMS's hard core

This project models five subsystems of the Contest Management System, and the
configuration parser they share a repository with, and proves what they are for.
`dafny verify dfyconfig.toml` checks everything.

**The ranking server's live scores.** Six entity stores refer to each other; a
scoring store listens to two of them and keeps, for every user and task, a sorted
list of changes, the released scores, the last submission and a score history.
The heart of the model is a *replay*: what one score should be, given its
submissions and its changes in order (`ScoreReplay`, with its laws in
`ScoreLaws`; `ScoreMeaning` says what each mode counts and what a history says about
a moment, in terms of the changes alone; `ScoreLate` is about submissions that arrive
late). `Scoring` holds the objects that are updated in place, `ScoreOps`
and `ScoreRuns` show that they stay equal to one replay of the surviving data,
whatever the order of arrival. `ScoringStore`, `ScoreIndex` and `ScoreAgreement`
do the same for all users and tasks, and say exactly when the irregular callbacks
break the agreement; `ScoreLimits` gives a concrete input for each of them.
`Entities`, `Cascade`, `Ledger`, `Puts`, `Merges` and `RankingServer` are the stores,
the cascading deletion, single entities and lists of them that are put, and the
server they are wired into. `LiveScores` reads off the stored entities what the
ranking shows for a user and a task; `GlobalHistory` merges all histories.

**The event stream.** `EventFormat` is the printer, `EventClient` a client that
follows sections 6 and 7 of the W3C Server-Sent Events Recommendation. `EventStream`
is the publisher with its bounded cache and its queues; `EventRuns` follows one client
over whole runs of puts, subscriptions, deliveries, disconnections and restarts, and
`EventConnection` reads the text of a connection.

**The build engine.** `BuildTree` is the depth-first execution on values,
`BuildEngine` the objects that do it in place, `BuildRuns` cycles and order,
`BuildAgain` time stamps.

**Dumps.** `DumpGraph` is the object graph and what a dump of a part of it is;
`DumpExport` the worklist, `DumpImport` the two passes, `DumpValues` the columns,
`DumpRoundTrip` the isomorphism, `DumpSession` what the database session persists of
it. `Reconcile` updates collections of objects in place.

**The sandbox.** `LockProtocol` is the protocol over the lock file and the directory of a
box, with any number of concurrent processes; `EnvRules` the rewriting of the environment in
an array of fixed capacity.

**Configuration.** `ConfigTypes` says which data conform to a type, `ConfigParser`
is the parser, `ConfigForms` all the ways to write a value, `ConfigRender` one
of them and back.

## Where the code differs from its intent

* A subchange updated with a new time is replaced where it stands
  (`ScoreAgreement.AnyUpdateChAgreesIff` is the exact condition,
  `ScoreLimits.MovedChangeIsStale` an input).
* A submission that changes its user or task loses its subchanges from the index
  until the next restart (`ScoreAgreement.MoveSubAgreesIff`,
  `ScoreLimits.MovedSubmissionIsStale`).
* A new score mode of a task reaches no score until one of its submissions is updated
  (`ScoreAgreement.ChangeModeAgreesIff`), and is then set after the replay, so that
  the history is that of the old mode (`ScoreOps.SetModeReflectsIff` and
  `ScoreAgreement.SetModeAgreesIff` are the exact conditions,
  `ScoreLimits.ChangedModeIsStale` an input); one more update mends the score
  (`ScoreOps.NextUpdateHeals`).
* A new submission leaves the history alone, which is wrong next to negative scores
  or details (`ScoreOps.CreateSubmissionReflectsIff` is the exact condition,
  `ScoreLimits.NegativeScoreIsStale` an input). For subtasks it needs changes at
  different times; `ScoreLimits.EqualTimesHideNegative` shows why.
* The request to reload that a reconnecting client may get has no data line, so a
  conforming client never sees it (`EventClient.ReinitIsNotDispatched`). The theorem
  about silent gaps therefore speaks of what is on the connection.
* A client that has received nothing and subscribed without an id comes back
  without one, and is not sent what was put in between, nor told to reload
  (`EventRuns.ReturnIsReliableIff` and `EventRuns.BacklogFitsIff` are the exact
  conditions, `EventRuns.BlindReturn` is a run).
* A variable that occurs twice in the original environment survives a rule that
  clears it (`EnvRules.ClearedIff`; `EnvRules.VariableDecided` is the exact condition
  for any rules).
* A cleanup that dies while it removes the box, entry by entry, leaves a record that
  lets the owner's next program execute in a box that has lost something
  (`LockProtocol.CarelessCleanupIsUnsafe`). `LockProtocol.DeathIsSafeIff` says that this
  is the only such death: once the directory the program works in is gone, the next run
  still gets past the lock (`LockProtocol.LateDeathLetsPast`), but does not find it.
* The configuration parser takes a truth value where an integer or a float is
  declared. Of two fields whose names differ by a trailing underscore only the first
  can be given: the other must have a default and always gets it
  (`ConfigRender.CollidingFieldsNeverParse`, `ConfigRender.LaterFieldIsDefault`), so
  that a value in which it differs never comes back
  (`ConfigRender.CollidingValueNeverComesBack`).
* Updating a list by key visits the keys as a set, so the order of the objects that are
  moved is arbitrary as soon as there are two (`Reconcile.OrderIrrelevantIff`). Of
  several old objects with a key that should go only the last goes
  (`Reconcile.KeysMatchIff`).
* Objects of the classes that are not left out may still be lost in an import, because
  they hang on objects that are (`DumpSession.SessionIsReachable`).
* The action of a source file takes no argument while it would be called with one;
  it never is, because a target without dependencies is always new enough (the log
  of a build only has actions of targets with dependencies,
  `BuildRuns.ExecuteKeeps`).

## Model

| member | source | states |
|---|---|---|
| `Scoring.NumberSet.Insert` | src/cmsranking/Scoring.py:56-57 | The stored numbers, as a multiset, gain exactly the given one. |
| `Scoring.NumberSet.Remove` | src/cmsranking/Scoring.py:59-60 | One occurrence of the number goes, the rest stay. |
| `Scoring.NumberSet.Query` | src/cmsranking/Scoring.py:62-63 | The greatest of zero and the stored numbers. |
| `Scoring.MaxScore` | src/cmsranking/Scoring.py:124-127 | The loop computes the best score of all submissions, zero if there are none. |
| `Scoring.SumOfBest` | src/cmsranking/Scoring.py:128-133 | The loop over padded columns computes the sum, over subtasks, of the best value in each, for rows of any lengths. |
| `Scoring.Score.constructor` | src/cmsranking/Scoring.py:84-101 | A new score has no submissions, changes, tokens or history. |
| `Scoring.Score.AppendChange` | src/cmsranking/Scoring.py:103-141 | In place, one change does one step of the replay: status, released scores, last submission and, if the score changed, one history entry; it never removes a released score that is not there. |
| `Scoring.Score.ResetHistory` | src/cmsranking/Scoring.py:146-160 | Clearing everything and appending all changes again gives the replay of the changes over the bare submissions. |
| `Scoring.Score.CreateSubchange` | src/cmsranking/Scoring.py:162-183 | The fast path for a change that arrives last and the insertion with full replay both give the specified state. |
| `Scoring.Score.UpdateSubchange` | src/cmsranking/Scoring.py:185-196 | The change is replaced where it stands and everything is replayed. |
| `Scoring.Score.DeleteSubchange` | src/cmsranking/Scoring.py:198-203 | The change leaves the list and everything is replayed. |
| `Scoring.Score.CreateSubmission` | src/cmsranking/Scoring.py:205-211 | The submission is added with zero score and no token; the history is left alone. |
| `Scoring.Score.UpdateSubmission` | src/cmsranking/Scoring.py:213-218 | The submission is replaced and everything is replayed. |
| `Scoring.Score.DeleteSubmission` | src/cmsranking/Scoring.py:220-228 | The submission and its changes go and everything is replayed. |
| `Scoring.Score.UpdateScoreMode` | src/cmsranking/Scoring.py:230-231 | The mode changes and nothing else does. |
| `ScoreLaws.ReplayReleased` | src/cmsranking/Scoring.py:109-118 | After any replay the released multiset holds each score exactly as often as there are tokened submissions with that current score. |
| `ScoreLaws.ReplayStatus` | src/cmsranking/Scoring.py:112-117 | After any replay every submission has the score, token and details of the last change that mentions each of them. |
| `ScoreLaws.ReplayLast` | src/cmsranking/Scoring.py:119-122 | The last submission is one that received a score, and none that did was submitted later; there is none exactly if no score was received. |
| `ScoreLaws.ScoreIsCurrent` | src/cmsranking/Scoring.py:124-144 | At every moment the last history entry is the score computed from the statuses, the released scores and the last submission. |
| `ScoreLaws.TokenedLastIsBest` | src/cmsranking/Scoring.py:134-136 | With tokens the score is the best of zero, all tokened submissions and the last one, and is attained. |
| `ScoreLaws.SubtaskIsSumOfBest` | src/cmsranking/Scoring.py:128-133 | With subtasks the score is the sum of the best values of the columns, for any number of columns that covers every row. |
| `ScoreLaws.ReplayAlternates` | src/cmsranking/Scoring.py:140-144 | The history never starts with zero and never holds two equal consecutive scores. |
| `ScoreLaws.ReplayTimesGrow` | src/cmsranking/Scoring.py:140-141 | If the changes are in order of time, so is the history. |
| `ScoreMeaning.MaxIsBestScore` | src/cmsranking/Scoring.py:124-127 | Counting the best: the score is the greatest of the scores that the submissions got last. |
| `ScoreMeaning.SubtaskScoreIsTotal` | src/cmsranking/Scoring.py:128-133 | With subtasks: the score is the sum over the subtasks of the best part of any submission, where a submission without details has its score as its first part. |
| `ScoreMeaning.NoDetailsIsBestScore` | src/cmsranking/Scoring.py:128-133 | If no submission has details the score of a task with subtasks is the best score. |
| `ScoreMeaning.TokenedLastScore` | src/cmsranking/Scoring.py:119-136 | With tokens: zero or the best, by latest score and token, of the submissions that have a token or are the last one; of several submitted together the one that got a score first is the last. |
| `ScoreMeaning.LastIsUnique` | src/cmsranking/Scoring.py:119-122 | These conditions determine the last submission. |
| `ScoreMeaning.HistoryReads` | src/cmsranking/Scoring.py:140-144 | What the history says about any moment is the score after exactly the changes up to that moment. |
| `ScoreLate.HistoryTells` | src/cmsranking/Scoring.py:140-144 | When no two changes have the same time, two replays of them, in whatever modes and over whatever submissions, have the same history if and only if they have the same score after every change. |
| `ScoreLate.ModeDecidesHistory` | src/cmsranking/Scoring.py:109-144 | The score mode decides the history and nothing else: statuses, released scores and last submission are the same in every mode. |
| `ScoreLate.FreshIffClear` | src/cmsranking/Scoring.py:124-136 | A submission without changes leaves the current score alone if and only if nothing that counts is negative: the best score, every column of the subtasks, or, with tokens, nothing at all. |
| `ScoreLate.ReplayWithFresh` | src/cmsranking/Scoring.py:205-211 | If that holds after every change, a submission created late leaves the history as if it had been there from the start, in every mode. |
| `ScoreLate.BestWelcomeIff` | src/cmsranking/Scoring.py:205-211 | For the best score it holds after every change if and only if no entry of the history is negative. |
| `ScoreLate.NonNegativeIsWelcome` | src/cmsranking/Scoring.py:205-211 | Without negative scores and details it always holds. |
| `ChangeOrder.PlaceSorted` | src/cmsranking/Scoring.py:162-183 | Inserting a change by (time, key) keeps the list sorted and adds exactly that change. |
| `ChangeOrder.ReplaceSortedIff` | src/cmsranking/Scoring.py:185-191 | Replacing a change in place keeps the list sorted if and only if the new version stands in the same order to all others. |
| `ChangeOrder.SortedUnique` | src/cmsranking/Scoring.py:162-183 | A set of changes has at most one sorted list. |
| `ScoreOps.CreateSubchangeReflects` | src/cmsranking/Scoring.py:162-183 | If the state was one replay of the tables, it is one replay of the tables with the new change, on both paths. |
| `ScoreOps.UpdateSubchangeReflectsIff` | src/cmsranking/Scoring.py:185-196 | After an update in place the state is a replay of the updated table if and only if the change keeps its place in the order. |
| `ScoreOps.DeleteSubchangeReflects` | src/cmsranking/Scoring.py:198-203 | After a deletion the state is one replay of the remaining changes. |
| `ScoreOps.CreateSubmissionReflectsIff` | src/cmsranking/Scoring.py:205-211 | Leaving the history alone for a new submission is right if and only if the submission would have weighed nothing after any change so far; for subtasks, if no two changes have the same time. |
| `ScoreOps.UpdateSubmissionReflects` | src/cmsranking/Scoring.py:213-218 | After a submission is replaced the state is one replay over the new submissions. |
| `ScoreOps.SetModeReflectsIff` | src/cmsranking/Scoring.py:320-321 | After an update that replays in the old mode and then sets a new one the state is a replay in the new mode if and only if both modes give the same history; in particular if the mode is the same. |
| `ScoreOps.SetModeMoments` | src/cmsranking/Scoring.py:320-321 | If no two changes have the same time: if and only if both modes give the same score after every change. |
| `ScoreOps.NextUpdateHeals` | src/cmsranking/Scoring.py:320-321 | Whatever the new mode, the next update of any submission of the score makes the state a replay in that mode. |
| `ScoreOps.DeleteSubmissionReflects` | src/cmsranking/Scoring.py:220-228 | After a submission goes the state is one replay of the changes of the others. |
| `ScoreRuns.ApplyReflectsIff` | src/cmsranking/Scoring.py:162-228 | An operation keeps the state one replay of what survives if and only if it is regular: a new submission that weighs nothing, an updated change that keeps its place, or anything else; only a late submission for subtasks with changes at equal times is not decided. |
| `ScoreRuns.ArrivalOrderIrrelevant` | src/cmsranking/Scoring.py:103-228 | Two runs of regular operations, in any order, that leave the same submissions and changes leave the same list, statuses, released scores, last submission and history. |
| `ScoreRuns.RunIsReplay` | src/cmsranking/Scoring.py:103-228 | After any such run the incremental state is one replay of the surviving changes in (time, key) order. |
| `ScoreRuns.PlainRunIsRegular` | src/cmsranking/Scoring.py:103-228 | Runs without negative values and without updates that change a time are such runs. |
| `ScoreLimits.EqualTimesHideNegative` | src/cmsranking/Scoring.py:128-144 | Two changes at one time, with details 1, -1 and then 1, 0: a late submission is not welcome and yet leaves the right history, so the times must differ for the exact condition. |
| `ScoreLimits.MovedChangeIsStale` | src/cmsranking/Scoring.py:185-191 | A concrete update that changes the time of a change leaves a live score of 7 where the replay in order gives 5. |
| `ScoreLimits.ChangedModeIsStale` | src/cmsranking/Scoring.py:320-321 | A concrete new mode that is set after the replay leaves a live score of 5 where the replay gives 3. |
| `ScoreLimits.MovedSubmissionIsStale` | src/cmsranking/Scoring.py:305-324 | A concrete submission that moves to another user has live score 0 where its stored change gives 5. |
| `ScoreLimits.NegativeScoreIsStale` | src/cmsranking/Scoring.py:205-211 | A concrete negative score stays live after a second submission without changes arrives. |
| `ScoreAgreement.CreateSubAgreesIff` | src/cmsranking/Scoring.py:290-303 | A fresh submission keeps the index a replay of the tables if and only if it would have weighed nothing after any change of its user and task. |
| `ScoreAgreement.DeleteSubAgrees` | src/cmsranking/Scoring.py:326-338 | Deleting a submission keeps the agreement and removes the score exactly when it was the last submission of its user and task. |
| `ScoreAgreement.UpdateSubAgrees` | src/cmsranking/Scoring.py:305-324 | A submission that keeps its user and task keeps the agreement. |
| `ScoreAgreement.MoveSubAgreesIff` | src/cmsranking/Scoring.py:305-319 | A submission that changes user or task keeps the agreement if and only if no stored subchange refers to it and it would have weighed nothing where it goes. |
| `ScoreAgreement.CreateChAgrees` | src/cmsranking/Scoring.py:340-347 | A new subchange keeps the agreement, whenever it arrives. |
| `ScoreAgreement.DeleteChAgrees` | src/cmsranking/Scoring.py:365-377 | A deleted subchange keeps the agreement. |
| `ScoreAgreement.AnyUpdateChAgreesIff` | src/cmsranking/Scoring.py:349-363 | An updated subchange keeps the agreement if and only if it changes its submission or stands in the same order to all other changes of its user and task. |
| `ScoreAgreement.ChangeModeAgreesIff` | src/cmsranking/Scoring.py:251-263 | The scoring store does not listen to the tasks: after a task changes its score mode the index agrees with the tables if and only if the mode is the same or the task has no submissions. |
| `ScoreAgreement.SetModeAgreesIff` | src/cmsranking/Scoring.py:305-324 | The next update of a submission sets the mode of its score after the replay: the index agrees with the tables again if and only if the mode is the old one, or no other user has a submission for the task, and both modes give this user the same history. |
| `ScoringStores.ScoringStore.InitStore` | src/cmsranking/Scoring.py:265-275 | Loading all submissions and then all subchanges, in any order within each loop, gives an index that agrees with the tables. |
| `ScoringStores.ScoringStore.CreateSubmission` | src/cmsranking/Scoring.py:290-303 | The callback makes or finds the score of the pair, adds the submission and notifies exactly if the score changed. |
| `ScoringStores.ScoringStore.UpdateSubmission` | src/cmsranking/Scoring.py:305-324 | The callback updates in place, or deletes and creates if user or task changed, with the notices of each part. |
| `ScoringStores.ScoringStore.DeleteSubmission` | src/cmsranking/Scoring.py:326-338 | The callback deletes the submission and drops the score object with the last one; the notice is sent for it. |
| `ScoringStores.ScoringStore.CreateSubchange` | src/cmsranking/Scoring.py:340-347 | The callback adds the change to the score of its submission and notifies exactly if the score changed. |
| `ScoringStores.ScoringStore.UpdateSubchange` | src/cmsranking/Scoring.py:349-363 | The callback replaces the change, or deletes and creates it if its submission changed. |
| `ScoringStores.ScoringStore.DeleteSubchange` | src/cmsranking/Scoring.py:365-377 | The callback removes the change, or does nothing if the submission is gone already. |
| `ScoringStores.ScoringStore.GetScoreOf` | src/cmsranking/Scoring.py:379-384 | The score of a pair, zero if there is no score object. |
| `ScoringStores.FaithfulBetween` | src/cmsranking/Scoring.py:286-288 | Whatever snapshot a listener starts from, applying the later notices in order gives the scores now. |
| `ScoringStores.StaysFaithful` | src/cmsranking/Scoring.py:286-288 | One notice, sent only on a change, keeps the notices a faithful log of all scores. |
| `ScoringStores.ToldIff` | src/cmsranking/Scoring.py:299-303 | The listener is told exactly if the score changed, and then what it is now. |
| `LiveScores.LiveView` | src/cmsranking/Scoring.py:234-384 | In an agreeing index the scores of a user on a task are one replay, in the mode of the task, of exactly the stored changes of exactly the stored submissions of that user on that task, in order of time and key. |
| `LiveScores.BestLiveScore` | src/cmsranking/Scoring.py:379-384 | In a task that counts the best, read off the stored entities: no submission says more than the score, and one says as much, or nothing and it is zero; the change that counts is the last by time and key. |
| `LiveScores.NoSubmissionNoScore` | src/cmsranking/Scoring.py:379-383 | Without a stored submission the score is zero. |
| `LiveScores.GreaterKeyCounts` | src/cmsranking/Scoring.py:162-183 | Of two changes of a submission at one time, with keys a and b, the one with key b counts, in either order of arrival. |
| `Entities.WiringComplete` | src/cmsranking/RankingWebServer.py:592-608 | Whatever can refer to an entity of a kind is in a store that the kind drags along, of a lower rank. |
| `Entities.DoomedThrough` | src/cmsranking/Store.py:268-298 | Going down with an entity is going down with something that refers to it. |
| `Entities.ConsistentIff` | src/cmsranking/Submission.py:79-81 | An entity is consistent exactly if what its fields name is stored: the contest of a task, the team of a user, the task and the user of a submission, the submission of a subchange. |
| `Entities.DoomedIffFalls` | src/cmsranking/Store.py:268-298 | What goes down with an entity, without following references: the tasks of a contest, the users of a team, the submissions of these tasks and users, and their subchanges. |
| `Cascade.SurvivorsOnFields` | src/cmsranking/Store.py:268-298 | Who survives a deletion, on the fields of the entities; no survivor names what is gone. |
| `Cascade.DragDependent` | src/cmsranking/Store.py:283-287 | Deleting one inconsistent dependent removes exactly what goes down with it, and what remains to do is unchanged. |
| `Cascade.RootLogged` | src/cmsranking/Store.py:283-290 | The callbacks fire for exactly the entities that go, once each, and none before one that refers to it. |
| `RankingServers.Server.constructor` | src/cmsranking/RankingWebServer.py:610-618 | The server starts with an index that agrees with the loaded entities. |
| `RankingServers.Server.Restart` | src/cmsranking/Scoring.py:265-275 | A scoring store rebuilt from the stored entities agrees with them, and has the scores and histories of the running one if and only if those agree too. |
| `RankingServers.Server.Delete` | src/cmsranking/Store.py:268-298 | The recursive cascade terminates, finds every key it asks for, and from a state that resolves below the deleted kind removes exactly the entity and its transitive referrers, with the callbacks in order. |
| `RankingServers.Server.HandleDelete` | src/cmsranking/Store.py:268-298 | From a consistent state: fails exactly on a missing key and then changes nothing; otherwise exactly the entity goes with what depends on it (tasks of a contest, users of a team, submissions of a task or user, subchanges of a submission), nothing that is left names it, notices stay faithful and the index still agrees. |
| `RankingServers.Server.Put` | src/cmsranking/Store.py:137-211 | One entity stored, one callback fired; afterwards the index agrees with the tables if and only if the put was regular: a task keeps its mode or has no submissions, a submission keeps its user and task or has no subchanges and weighs nothing where it goes, a subchange moves to another submission or keeps its place. |
| `RankingServers.Server.Create` | src/cmsranking/Store.py:137-172 | Fails on an existing key, then on bad data or if something the entity names is not stored, and then changes nothing; otherwise stores the entity, fires one callback, and the index agrees afterwards if and only if the put was regular. |
| `RankingServers.Server.Update` | src/cmsranking/Store.py:174-211 | Fails on a missing key, then on bad data or if something the entity names is not stored, and then changes nothing; otherwise the index agrees afterwards if and only if the update was regular. |
| `RankingServers.Server.MergeList` | src/cmsranking/Store.py:213-266 | All items are checked first, their keys, their data and what they name: either nothing changes, or all are stored and each fires one callback, creation or update with the old version. Without negative scores the index agrees afterwards, for lists of anything but subchanges, if and only if every item was regular on its own; for subchanges it agrees if none changes its submission or time. |
| `RankingServers.Server.DeleteList` | src/cmsranking/Store.py:300-309 | All entities of a kind and everything that refers to them go, each with one callback and none before one that refers to it, and the agreement is kept. |
| `Merges.JudgedTasks` | src/cmsranking/Store.py:239-256 | Putting a list of tasks keeps the agreement if and only if every task keeps its mode or has no submissions. |
| `Merges.LostMatchesNot` | src/cmsranking/Store.py:239-256 | A stored subchange that no score has in its list, as a moved submission leaves behind, rules out any agreement. |
| `Ledgers.DeleteSettled` | src/cmsranking/Store.py:268-298 | After a complete cascade the index is in step with what remains, the notices are faithful and the agreement is kept. |
| `Merges.TameIsRegular` | src/cmsranking/Store.py:174-266 | Without negative scores, an update that keeps mode, user, task, submission and time is regular. |
| `GlobalHistories.PopLeast` | src/cmsranking/Scoring.py:411-412 | The queue gives up its least element in (time, score, user, task) order. |
| `GlobalHistories.Merge` | src/cmsranking/Scoring.py:401-416 | The merge terminates; its projection on each pair is exactly the history of that pair, in order; it is in time if and only if every history is; and every row is the least of the next entries, by time, score, user and task. |
| `GlobalHistories.GlobalHistory` | src/cmsranking/Scoring.py:391-416 | On a scoring store that agrees with its tables the global history is in time and projects on every history. |
| `GlobalHistories.AgreeingHistoriesGrow` | src/cmsranking/Scoring.py:391-416 | In an index that agrees with its tables every history is in time. |
| `EventFormat.FormatEvent` | src/cmscommon/eventsource.py:38-76 | Refuses exactly the names with a colon or a line break; otherwise the text is the id line, the name line unless it is the default, one line per line of data, and an empty line. |
| `EventFormat.LegalNameIff` | src/cmscommon/eventsource.py:60-65 | A name is refused exactly if a carriage return, a line feed or a colon is in it. |
| `EventFormat.MessageIsDefault` | src/cmscommon/eventsource.py:60 | The name of the default prints as no name. |
| `EventClient.RoundTrip` | src/cmscommon/eventsource.py:57-76 | A client that follows the Recommendation reads back, from any concatenation of events, pings and reload requests, exactly the events with data, in order, and the last id. |
| `EventClient.ArrivesAsMeantIff` | src/cmscommon/eventsource.py:38-76 | An event arrives with its id, name and normalised data if and only if it has data, its name is not empty, and no id, name or line of data starts with a space. |
| `EventFormat.JoinSplitIff` | src/cmscommon/eventsource.py:71-72 | Normalising line breaks changes nothing if and only if there is no carriage return. |
| `EventFormat.JoinSplitIsNormal` | src/cmscommon/eventsource.py:67-71 | The lines of the data, joined, are the data with every line break, of one character or two, made a line feed. |
| `EventClient.ReinitIsNotDispatched` | src/cmscommon/eventsource.py:146-148 | The reload request carries no data, so no conforming client ever dispatches it. |
| `EventStream.HexParses` | src/cmscommon/eventsource.py:112-139 | A key printed in hexadecimal matches the id pattern and parses to the same key. |
| `EventStream.ParseIdIff` | src/cmscommon/eventsource.py:138-140 | An id is taken for a number exactly if it consists of hexadecimal digits of either case, with or without a line feed behind them. |
| `EventStream.EitherCaseParses` | src/cmscommon/eventsource.py:138-140 | The id of an item in upper case is read as the same key. |
| `EventStream.Publisher.Put` | src/cmscommon/eventsource.py:98-119 | A refused name changes nothing; otherwise the cache holds the newest items, this one included, as many as before and one more or as many as fit, and every queue gets the item. |
| `EventStream.Publisher.GetSubscriber` | src/cmscommon/eventsource.py:121-151 | The new queue holds everything after the given id if the cache reaches back to it, else one reload request; nothing without a valid id. |
| `EventStream.Queue.Drain` | src/cmscommon/eventsource.py:172-193 | All queued items are handed over in order. |
| `EventRuns.CacheServes` | src/cmscommon/eventsource.py:140-145 | If the cache reaches back to a key, what it holds after the key is exactly what the whole log holds after it. |
| `EventRuns.CacheHoldsNewest` | src/cmscommon/eventsource.py:98-116 | Over every run the cache holds the newest items put since the publisher last started: all, or as many as it has room for. |
| `EventRuns.SubscriberIsServed` | src/cmscommon/eventsource.py:134-148 | Over every run: a subscriber that names a key is sent exactly the items after it if the last item not after it is among these, else exactly one request to reload. |
| `EventRuns.NewestAreServed` | src/cmscommon/eventsource.py:134-148 | In particular one that has the id of an item is sent exactly what came after it if the item is among the newest, as many as fit, and put since the start, else a request to reload. |
| `EventRuns.BacklogFitsIff` | src/cmscommon/eventsource.py:134-148 | What a subscriber is sent is everything it lacks or a request to reload if and only if it comes with an id or lacks nothing. |
| `EventRuns.StepKeeps` | src/cmscommon/eventsource.py:98-151 | Every put, subscription, resumption, delivery, disconnection and restart keeps the invariant of the stream. |
| `EventRuns.EventsAreSlice` | src/cmscommon/eventsource.py:121-151 | Consecutive events without a reload request between them are a contiguous slice of the log. |
| `EventRuns.NoSilentGaps` | src/cmscommon/eventsource.py:98-193 | Over every run in which nobody comes back without an id for something it lacks, however small the cache and however often the client was cut off: no silent gap, no duplicate, no disorder, and a client whose queue is empty has seen the whole log. |
| `EventRuns.ReturnIsReliableIff` | src/cmscommon/eventsource.py:134-151 | That condition is exact: a return leaves the client reliable if and only if it has an id or lacks nothing; otherwise its connection is silent about all it lacks. |
| `EventRuns.BlindReturn` | src/cmscommon/eventsource.py:134-151 | A concrete run: subscribed without an id, cut off, back without one; the item put in between is never sent, and the next one arrives as if it were the first. |
| `EventConnection.ReadsLastId` | src/cmscommon/eventsource.py:345-393 | From the text of a connection, with pings and reload requests anywhere in it, a client reads exactly the items with data and comes back with the key of the last item sent, or without an id if there was none. |
| `BuildEngine.BuildExecutionTree` | src/cmstaskenv/cmsMake.py:597-620 | Fails exactly if a target has two rules; otherwise every output has its rule and inputs, everything else is a source, and the tree is closed under dependencies. |
| `BuildEngine.Builder.ExecuteTarget` | src/cmstaskenv/cmsMake.py:623-682 | The recursion on shared sets computes the specified execution, terminates, and restores the stack on every normal return. |
| `BuildEngine.Builder.ExecuteTargets` | src/cmstaskenv/cmsMake.py:685-690 | The requested targets in turn, each with an empty stack. |
| `BuildRuns.ExecuteKeeps` | src/cmstaskenv/cmsMake.py:640-661 | One request keeps the finish order topological, visits nothing twice, runs actions only on finished dependencies, and reports a cycle only if one is reachable. |
| `BuildRuns.CircularIff` | src/cmstaskenv/cmsMake.py:640-661 | A request that nothing else stops reports a circular dependency if and only if a cycle is reachable from its target; in a closed tree no target is unknown. |
| `BuildRuns.InTurn` | src/cmstaskenv/cmsMake.py:685-690 | Targets are requested in turn, and none after one that does not succeed. |
| `BuildRuns.ExecuteExplained` | src/cmstaskenv/cmsMake.py:630-682 | Why a request stops: a reachable target is not in the tree, or has a dependency without a file, or ran last and has no action or one that fails. |
| `BuildRuns.BuildOrder` | src/cmstaskenv/cmsMake.py:640-690 | Across all targets each is visited at most once; when an action runs the whole cone of its target is finished and acyclic; a successful build has finished everything reachable. |
| `BuildTree.OrderIsAcyclic` | src/cmstaskenv/cmsMake.py:646-661 | From a target in a topological order everything reachable is in the order, and no cycle is. |
| `BuildAgain.BuildIsSound` | src/cmstaskenv/cmsMake.py:651-682 | With actions that refresh only their own target, after a successful build every built file is at least as new as each of its dependencies. |
| `BuildAgain.SecondBuildIsIdle` | src/cmstaskenv/cmsMake.py:651-690 | A second build right after a successful one runs no action that makes a file and changes no file. |
| `LockProtocol.LockFile.Check` | src/isolate/isolate.c:184-221 | The checks on the lock file, in the order of the source, let in exactly the callers the record allows, and only an initialization that gets in rewrites the record. |
| `LockProtocol.EntersIff` | src/isolate/isolate.c:184-224 | When each command gets in, in terms of the record and the caller. |
| `LockProtocol.PastTheLock` | src/isolate/isolate.c:192-195 | Over a complete record exactly its user and root, in its mode, get past the lock, for whatever command. |
| `LockProtocol.EveryRunRespectsOwners` | src/isolate/isolate.c:184-224 | Over all interleavings, also with cleanups that die half-way: after an initialization has finished, only its user or root, in its mode, takes the box or removes something of it, until one of them has taken it or a cleanup has finished. |
| `LockProtocol.StepKeeps` | src/isolate/isolate.c:159-246 | Every step of every process keeps the invariant, in which a box behind a complete record is whole, or lets no program start, or is being removed by a cleanup; processes die anywhere but in the middle of the removal by a cleanup. |
| `LockProtocol.EveryRunIsSafe` | src/isolate/isolate.c:1033-1047 | Over all interleavings: a command past the lock is alone, the record is its owner's or it is root, in its mode; and a program executes only in a whole box whose last initialization finished and of which nothing has been removed since. |
| `LockProtocol.DeathIsSafeIff` | src/isolate/isolate.c:937-984 | After the death of a process all further runs are safe if and only if it is not a cleanup that has removed something of the box and not yet the directory the program works in. |
| `LockProtocol.UndisturbedInit` | src/isolate/isolate.c:945-971 | An initialization that the file lets in and nobody disturbs, over no file, an empty one or an old record, and over whatever box, removes what is there and leaves a whole box and a complete record of its owner and mode. |
| `LockProtocol.CarelessCleanupIsUnsafe` | src/isolate/util.c:129-212 | If cleanups may die in the middle of the removal, one entry at a time, there is a run in which a program executes in a box that has lost something. |
| `LockProtocol.LateDeathLetsPast` | src/isolate/isolate.c:1035-1039 | A cleanup that dies when the directory is gone leaves a record that lets the next run past the lock; there is no box, so by `LockProtocol.EveryRunIsSafe` no program executes. |
| `EnvRules.ParseActionExact` | src/isolate/rules.c:38-60 | An option is accepted as a rule if and only if it is written as that rule, with a name that has no equals sign and is empty only without a value. |
| `EnvRules.MatchesIff` | src/isolate/rules.c:62-68 | An entry matches a name if and only if the name is what stands before its first equals sign. |
| `EnvRules.ApplyEnvRule` | src/isolate/rules.c:70-105 | The swap-removal and the append in the array compute one rule, stay in bounds and keep the end mark. |
| `EnvRules.SetupEnvironment` | src/isolate/rules.c:107-154 | The array holds the original entries with all rules applied; its size never exceeds original entries plus rules. |
| `EnvRules.ApplyGroup` | src/isolate/rules.c:70-105 | A rule takes the first entry of its variable away, if there is one, puts at most one at the end, and leaves the entries of every other variable, and those without a name, alone, however often they occur. |
| `EnvRules.VariableDecided` | src/isolate/rules.c:70-154 | The last rule for a variable decides it (cleared, set, or as the caller has it first) if and only if the variable occurs at most once more than earlier rules clear it; without a rule it stays. |
| `EnvRules.RulesRefineMap` | src/isolate/rules.c:70-154 | Applying the rules to the array is applying them in order to a map, for every variable on which array and map agree, however often other variables occur. |
| `EnvRules.LastRuleDecides` | src/isolate/rules.c:70-105 | The last rule for a variable decides its value: set, cleared or inherited; without one it keeps its value. |
| `EnvRules.ClearedIff` | src/isolate/rules.c:74-82 | A clearing rule removes a variable if and only if it occurs at most once. |
| `EnvRules.FinalEnvironment` | src/isolate/rules.c:107-154 | What the sandboxed program sees of a variable: what the last of the built-in and the caller's rules says, exactly if it is passed on at most once more than earlier rules clear it, or the caller's own entries if there is no rule; entries without a name are passed on, all or none. |
| `EnvRules.FatalErrorsShown` | src/isolate/rules.c:34-36 | If the caller has no rule for it, the sandboxed program has LIBC_FATAL_STDERR_ set to 1 and no other value of it, exactly unless the caller passes it on more than once. |
| `Reconcile.UpdateList` | src/cmscontrib/importing.py:173-203 | Old objects keep their places and take the values of the new ones; surplus old ones go; surplus new ones are moved once, in order. |
| `Reconcile.UpdateDict` | src/cmscontrib/importing.py:206-233 | For every order of the keys: the old dictionary ends with the keys of the new one, matched old objects keep their identity and take the new values, unmatched new objects are moved out of the new one. |
| `Reconcile.UpdateListWithKey` | src/cmscontrib/importing.py:236-270 | For every order of the keys, and with keys that repeat: old objects keep order and identity except the last of each key that is gone, matched ones take the new values, and the last of each unmatched new key is moved, in the order of the keys. |
| `Reconcile.ByKeyIsLast` | src/cmscontrib/importing.py:255-256 | Of several objects with one key the last is the one that is looked up. |
| `Reconcile.OrderMovesOnly` | src/cmscontrib/importing.py:257-270 | Two orders of the keys give the same new list, and the same old list if and only if they move the unmatched new objects in the same order. |
| `Reconcile.OrderIrrelevantIff` | src/cmscontrib/importing.py:257-270 | Every order of the keys gives the same old list if and only if at most one new key has no old object. |
| `Reconcile.KeysInTheEnd` | src/cmscontrib/importing.py:257-270 | The old list ends with exactly the keys of the new one and its own that are preserved or occur on several objects. |
| `Reconcile.KeysMatchIff` | src/cmscontrib/importing.py:257-270 | When nothing is to be preserved it ends with exactly the keys of the new one if and only if no key that should go occurs on several objects. |
| `ConfigParser.ParseConfigObj` | src/cmscommon/conf_parser.py:85-183 | The recursion on the type, with its loops and deleted keys, succeeds exactly on data that conform and gives the value they stand for. |
| `ConfigParser.ParseRecord` | src/cmscommon/conf_parser.py:95-124 | Fields take their keys in order; required ones must be found, others fall back to their default. |
| `ConfigParser.TypedInhabits` | src/cmscommon/conf_parser.py:85-183 | If defaults inhabit their types, so does what the parser returns. |
| `ConfigParser.ParseConfig` | src/cmscommon/conf_parser.py:85-183 | Parsing succeeds if and only if the data conform, and then gives a value of the declared type. |
| `ConfigForms.ParsedIff` | src/cmscommon/conf_parser.py:85-183 | Parsing gives a value if and only if the data are one of the ways to write it: floats also as integers or truth values, integers as truth values, fields under their name less one underscore, or left out for their default, in types of any depth. |
| `ConfigForms.AcceptedIff` | src/cmscommon/conf_parser.py:85-183 | Data are accepted if and only if they are a way to write some value. |
| `ConfigRender.RoundTrip` | src/cmscommon/conf_parser.py:95-124 | Writing a typed value with the trailing underscores stripped and parsing it gives the value back when stripped names do not collide. |
| `ConfigRender.CollidingFieldsNeverParse` | src/cmscommon/conf_parser.py:104-118 | If two fields share a stripped name and the later has no default, no data are accepted. |
| `ConfigRender.LaterFieldIsDefault` | src/cmscommon/conf_parser.py:104-122 | If the later one has a default, every accepted table gives it that default. |
| `ConfigRender.CollidingValueNeverComesBack` | src/cmscommon/conf_parser.py:95-124 | A value whose later field differs from its default is what no data parse to. |
| `DumpValues.DecodeEncodeIff` | src/cmscontrib/DumpExporter.py:126-151 | A column value, arrays included, is decoded to itself if and only if no date in it is beyond what the importing system can represent, but for the fallback date itself. |
| `DumpValues.FallbackIsYear` | src/cmscontrib/DumpImporter.py:131-134 | The date that replaces those too far in the future is the first of January 2030, by the calendar. |
| `DumpGraph.DecimalInjective` | src/cmscontrib/DumpExporter.py:304-305 | Ids of different numbers differ. |
| `DumpGraph.DecimalValue` | src/cmscontrib/DumpExporter.py:304-305 | An id is the decimal notation of its number. |
| `DumpGraph.ReachableIsFound` | src/cmscontrib/DumpExporter.py:335-378 | What can be reached is exactly what some chain of relationships leads to from a root, none of them to a class to be skipped. |
| `DumpExport.Exporter.GetId` | src/cmscontrib/DumpExporter.py:301-308 | A key gets the next number and is queued when first seen; later it keeps its id. |
| `DumpExport.Exporter.ExportObject` | src/cmscontrib/DumpExporter.py:310-387 | The object is written with its columns encoded and every kept relationship as ids; new ids go to exactly the objects it refers to. |
| `DumpExport.Exporter.DoExport` | src/cmscontrib/DumpExporter.py:263-287 | The worklist terminates and the dump holds exactly the objects reachable from the roots, each once under its own id, none of which starts with an underscore. |
| `DumpImport.DoImport` | src/cmscontrib/DumpImporter.py:265-293 | Every object entry becomes one object with decoded columns; classes to skip are left out; relationships resolve to the objects present. |
| `DumpRoundTrip.ImportIsCopy` | src/cmscontrib/DumpImporter.py:265-293 | Whatever was skipped: different objects have different copies with the same class, the same relationships between copies, and the same columns if and only if all dates are in range. |
| `DumpRoundTrip.FullCopyMirrors` | src/cmscontrib/DumpImporter.py:422-457 | When the import leaves no class out every scalar, list and dictionary relationship is mirrored object by object, cycles included. |
| `DumpSession.AddToSession` | src/cmscontrib/DumpImporter.py:297-308 | Adding the top-level objects that are left one by one, each with everything its relationships lead to, adds exactly what can be reached from them. |
| `DumpSession.SessionIsReachable` | src/cmscontrib/DumpImporter.py:295-308 | The session holds the copies of exactly the objects that can be reached from the roots that are left by way of objects that are left. |
| `DumpSession.AllReachable` | src/cmscontrib/DumpImporter.py:295-308 | When no class is left out that is everything the import has read. |
| `DumpSession.ExportAndImport` | src/cmscontrib/DumpImporter.py:265-317 | Export, import and session together: copies of exactly the objects reachable from the roots and not of a class left out are read, and of these exactly what is still reachable from the roots is persisted. |

## Left out

- ScoreRuns.ApplyReflectsIff: a late submission next to negative details of changes at equal times is not decided, because the histories can coincide (`ScoreLimits.EqualTimesHideNegative`); `ScoreAgreement.CreateSubAgreesIff`, `ScoreAgreement.MoveSubAgreesIff` and `RankingServers.Server.Put` have the same gap.
- ScoreRuns.RunIsReplay: a run with an irregular operation is not characterised beyond that operation; a later one may mend the state.
- ScoringStores.ScoringStore.InitStore: the loops run in arbitrary order, while the original sorts the subchanges by key; the result is the same.
- RankingServers.Server.Create: `validate` and `set` are one option, none when they reject the data.
- RankingServers.Server.MergeList: for lists of subchanges the agreement is only shown to be kept, not characterised, since an irregular update may be undone by the next one; the exact statement for submissions is made where no stored subchange is negative.
- Scoring.Score.AppendChange: the status of a submission is kept in the score's own map instead of attributes of the shared submission object; unknown score modes, and the error they raise, are not modelled.
- GlobalHistories.Merge: the binary heap is a set with a least element, and the histories do not change while the generator is running.
- EventFormat.FormatEvent: text is a sequence of characters, its encoding as UTF-8 and the type errors are not modelled; ids with line breaks, which the publisher never makes, are excluded by the readers of the stream.
- EventRuns.NoSilentGaps: keys are assumed to grow strictly, which a microsecond clock gives unless it stands still or is set back; snapshot ids are not in the future.
- BuildRuns.CircularIff: a failing action, a missing file or an unknown target may stop a request before it meets a cycle.
- BuildAgain.BuildIsSound: rules with several outputs, such as the generation of all inputs at once, do not fit the assumption that an action refreshes only its own target.
- LockProtocol.EveryRunIsSafe: writes of the lock record are atomic, `flock` is exclusive and released on exit; a sandboxed program that outlives its killed keeper is not modelled. Of the box the model knows whether its two directories are there and whether an initialization or a cleanup has removed something; what programs write or remove themselves, and the special files a run removes, do not count.
- EnvRules.SetupEnvironment: the linked list of rules is a sequence, and the built-in rules are a parameter; they are linked in front only once.
- Reconcile.UpdateListWithKey: the key of an object is constant and its columns are one value; no object is listed twice.
- EventStream.Publisher.GetSubscriber: queues that nobody fetches from any more are not dropped from the set.
- ConfigParser.ParseConfigObj: errors carry no path, and the table is a value, so that the caller's table is not seen to lose its keys.
- DumpExport.Exporter.DoExport: the columns and relationships of an object are two tables instead of one, and are visited in arbitrary order.
- DumpImport.DoImport: the data are assumed to fit the schema, as the original assumes; missing columns are left to the constructor.
- DumpSession.AddToSession: the session cascades along every relationship; flushing, identities and the database itself are not modelled.
- DumpValues.DecodeEncodeIff: seconds are reals; the rounding of floating point is not modelled.
- Scores are reals instead of floating point numbers, and the nested dictionary of scores is one map from pairs.
- The payload of contests, teams and users, images, HTTP, authentication, static files, the disk and its JSON are not modelled; loaded entities are taken to be consistent.
- One listener of the scoring store stands for all; the conversion of notices and store callbacks to events is plumbing.
- The directory rules of the sandbox (path checks and a table in which the last rule for a path wins) would only add easy members.
- Mounts, control groups, limits, signals and credentials of the sandbox are system calls.
- Digests, archives, file contents and data model updaters of dumps are not modelled.
- Compiler invocations, detection of task types and cleaning of task directories are not modelled.

# GetOps: verified model

GetOps is a trading-operations trainer. A learner's whole progress is one profile document, saved by React
tabs and a legacy page through a C++ service into PostgreSQL, with a Python predecessor beside it. This
project models the parts where a mistake would cost the learner something: saving under concurrency, paying
XP, scoring written recall and re-checking the score, judging practice lineage and training plans, and the
Galton board that claims to show a probability law. Dafny proves what those parts promise.

`dafny verify dfyconfig.toml` checks everything.

| part | files |
|---|---|
| one save as a transaction, and many at once | `ProfileRepository`, `RepositoryWorkers` |
| tabs, queues, reload-and-retry, lost and late requests | `ProfileState`, `UpdateFrames`, `SyncProtocol`, `RaceRecovery`, `SavedRuns` |
| XP, claims and attempts over whole runs | `RewardLedger`, `RecallHistory`, `RecallRuns`, `Evidence` |
| runs that show a limit | `LoneTab`, `SampleCards`, `RewardLapse` |
| what the service accepts, and that pages only send that | `StateValidator`, `AcceptedSaves`, `Contracts` |
| recall text and scoring | `RecallText`, `RecallScorer` |
| ETags and the legacy browser cache | `Etag`, `LegacyBrowser` |
| the Galton engine, its playback and its drawing | `GaltonEngine`, `GaltonPaths`, `GaltonMoments`, `GaltonFields`, `GaltonSimulation`, `GaltonCanvas`, `GaltonPlayback`, `GaltonPlayer` |
| practice lineage and training plans | `PracticeHistory`, `TrainingPlans` |

## How it is built

Code that changes state step by step is a class or a method with loops, each proved against a function of
the old state; the properties are lemmas about those functions. Protocols are total step functions folded
over arbitrary lists of actions: an action that is not enabled changes nothing, so "every interleaving" is
"every list". In `SyncProtocol` a request may be served at any later time, its answer may never arrive, a
save may become durable without an answer, reads may return any committed revision, and other clients may
write anything the service accepts.
That it takes a whole save as one step is `RepositoryWorkers.SavesAreAtomic`: every interleaving of
statements has the tables and the answers of single attempts.

## What it found

- XP is documented as claimable once per card and calendar day. `RewardLedger.OncePerCardPerDay` proves it
  whenever the saved days never go back. Without that it is false: the claim list keeps 1000 keys, and
  `RewardLapse.AStoredRunIsPaidTwice` is a run of the whole protocol, every save stored, that is paid twice.
  `RewardLedger.TwiceExactlyWhenLapsed` says exactly when, on the attempts alone.
- A 304 is honest when the service answers it, but the legacy page returns whatever it has cached when the
  answer arrives. `LegacyBrowser.OvertakenLoadIsStale` is a run where an overtaken load makes that an older
  revision; `LegacyBrowser.LateNotModified` gives the exact condition: the page's tag is still the confirmed one.
- `docs/typed-recall.md` says the learner is asked to reapply after a conflict. The code first reloads and
  reapplies once by itself and asks only when the second save also loses; the model follows the code.
- The same document requires the selected attempt to be retained evidence. The service's validator does not
  look at the selection (`RecallHistory.DanglingSelectionIsAccepted`); the pages keep it
  (`RecallHistory.SelectionStaysRetained`).
- A scored attempt passes the validator exactly when no concept of its card exceeds 80 characters
  (`StateValidator.AuthenticAttemptsPass`). Nothing in the catalogue's field rules ensures that
  (`SampleCards.LongConceptExists`, `SampleCards.LongConceptIsRefused`).
- The service accepts documents that no page can load: it checks neither the length of the selection nor an
  answer's length once trimmed (`UpdateFrames.LoadableExactly`, `UpdateFrames.UnloadableIsAccepted`).
- A practice score of 100 may leave work: an overconfident clean answer is to be repaired
  (`PracticeHistory.PerfectButOverconfident`).
- Replay and repair links may form cycles (`PracticeHistory.CyclesAreAccepted`); on one, nothing repaired was ever
  resolved (`PracticeHistory.CyclesResolveNothing`).
- An update is refused for its attempt id exactly when that id is among the 199 newest
  (`AcceptedSaves.UpdateIsAccepted`).

## Model

| member | source | states |
|---|---|---|
| `ProfileRepository.Save` | services/api/src/profile_repository.cpp:187-263 | for every fault position, including a commit whose answer is lost, what the caller is told and what the tables then hold |
| `ProfileRepository.RunStatements` | services/api/src/profile_repository.cpp:205-260 | the statements together either leave the whole new row and trimmed history in the working tables or report exactly why not |
| `ProfileRepository.Transaction.Close` | services/api/src/profile_repository.cpp:88-95 | an uncommitted transaction leaves the committed tables as they were |
| `ProfileRepository.SaveKeeps` | services/api/src/profile_repository.cpp:209-260 | a save succeeds exactly from the current revision; afterwards the live row is the newest commit and history is exactly the last 200 revisions, each with its own state and request |
| `ProfileRepository.AttemptIsAtomic` | services/api/src/profile_repository.cpp:79-105 | all or nothing under any fault: success implies durable, a reported conflict implies nothing durable and a truly stale revision, and only a lost acknowledgement commits untold |
| `ProfileRepository.ImportEmpty` | services/api/src/profile_repository.cpp:265-270 | an import is a save from revision 0 and succeeds only on an empty profile |
| `ProfileRepository.Load` | services/api/src/profile_repository.cpp:168-185 | an absent row reads as revision 0 with no state, a present one as itself |
| `RepositoryWorkers.CommitsAreSerial` | services/api/src/profile_repository.cpp:201-262 | every interleaving of statements, rollbacks and lock-key collisions leaves the tables that its commits, run one at a time, leave |
| `RepositoryWorkers.SavesAreAtomic` | services/api/src/profile_repository.cpp:187-263 | every interleaving of statements equals single atomic attempts, one after another in the order the saves ended, each under one fault: same tables, and the same answer to every caller, lost acknowledgements included |
| `RepositoryWorkers.TablesAreWellKept` | services/api/src/profile_repository.cpp:243-261 | on every run and profile: revisions count the commits, history is max(1, r-199) to r, newest equal to the live state |
| `RepositoryWorkers.OneWinnerPerRevision` | services/api/src/profile_repository.cpp:229-243 | at most one writer commits from each revision of a profile, and expected revisions go up by exactly one |
| `RepositoryWorkers.LockedProfilesDiffer` | services/api/src/profile_repository.cpp:203-208 | two open transactions past the lock never share a lock key |
| `RepositoryWorkers.OnlyConflictsEndASave` | services/api/src/profile_repository.cpp:217-251 | no key violation can occur: a running save ends at a statement exactly by committing or by a true revision conflict |
| `RepositoryWorkers.LoneWorkerCommits` | services/api/src/profile_repository.cpp:201-262 | after any run, a save left to itself with a free lock key and the current revision commits, tells its caller the new row and frees the lock |
| `RepositoryWorkers.EndsFreeTheLock` | services/api/src/profile_repository.cpp:79-105 | a worker cut off frees its lock, stores nothing and reports a failure; a lost acknowledgement frees it too, and stores |
| `ProfileState.SaveProfileUpdate` | apps/web/src/state/profile-state.tsx:49-76 | a second request is sent exactly when the first was answered with status 409 or 412 or one of the two conflict codes and the reload is usable; each request carries the updater, called anew at its own time, applied to the normalised state of the revision it names; success, failure and race are reported exactly then |
| `RaceRecovery.ConflictsAreRaces` | apps/web/src/state/profile-state.tsx:49-71 | for every job and fault: the answer to a save makes a tab reload the first time, and report a race the second, exactly when the repository refused a stale revision |
| `RaceRecovery.StaleIsRefused` | services/api/src/api_server.cpp:185-195 | a request from a revision behind the current one is answered 409 revision_conflict and changes nothing |
| `RaceRecovery.StaleHeadRecovers` | apps/web/src/state/profile-state.tsx:65-73 | a running save that has fallen behind, once served, answered, reloaded at the newest revision and served again, commits its update of that revision, settles, and the tab shows the result |
| `RaceRecovery.StartMoves` | apps/web/src/state/profile-state.tsx:101-109 | a waiting head that starts has sent a request or is done; with no profile loaded it fails |
| `RaceRecovery.ServeMoves` | services/api/src/api_server.cpp:169-198 | a request the service handles is answered and its tab left alone; a refused state is answered 422 and changes nothing |
| `RaceRecovery.ReceiveMoves` | apps/web/src/state/profile-state.tsx:65-73 | an answered head is done unless it lost its first race, when it reloads |
| `RaceRecovery.ReloadMoves` | apps/web/src/state/profile-state.tsx:65-73 | a reloading head that gets a profile has sent its second and last request or is done |
| `RaceRecovery.ForeignCommits` | services/api/src/profile_repository.cpp:187-263 | another client's accepted write from the current revision commits |
| `ProfileState.NormalizeIsFull` | apps/web/src/state/profile-state.tsx:38-45 | normalising completes every known field and reaches the schema's fixed point |
| `ProfileState.NormalizeFixesFull` | apps/web/src/state/profile-state.tsx:38-45 | on completed documents normalising is the identity |
| `ProfileState.NextIsFull` | apps/web/src/state/profile-state.tsx:66 | what an update sends is again complete |
| `UpdateFrames.NormalizeKeepsStored` | apps/web/src/state/profile-state.tsx:38-45 | loading keeps every stored field, raises the version to 30, trims answers and fills in what is absent |
| `UpdateFrames.DraftFrame` | apps/web/src/features/flashcards/FlashcardsPage.tsx:95-104 | saving a draft replaces that card's draft, cut to 1200 characters, and nothing else |
| `UpdateFrames.ShuffleFrame` | apps/web/src/features/flashcards/FlashcardsPage.tsx:177-180 | moving on puts the card first among the recent ones, keeps the others in order, keeps six, and changes nothing else |
| `UpdateFrames.RenameFrame` | apps/web/src/features/profile/ProfilePage.tsx:60-64 | renaming trims both texts, falls back to "Operator", and changes nothing else |
| `UpdateFrames.RecallFrame` | apps/web/src/features/flashcards/FlashcardsPage.tsx:205-213 | a recall leaves drafts, recent cards, names and unknown fields alone and makes its card active and its attempt selected |
| `UpdateFrames.LoadableExactly` | packages/contracts/src/index.ts:42-74 | a document the service accepts can be loaded by the pages exactly when its selection has at most 100 characters and every answer keeps 20 once trimmed |
| `UpdateFrames.UnloadableIsAccepted` | services/api/src/state_validator.cpp:189-280 | a document the service accepts and no page can load |
| `SyncProtocol.StepKeeps` | apps/web/src/state/profile-state.tsx:101-136 | every action of tabs, network, service and foreign writers keeps the five-part invariant of log, tasks, caches, queues and order |
| `SyncProtocol.RestampKeeps` | apps/web/src/state/profile-state.tsx:65-71 | calling an updater again for the second attempt, with a new draft time, keeps every invariant |
| `SyncProtocol.StoreIsTheFold` | apps/web/src/state/profile-state.tsx:65-69 | on every run each commit of a tab is its update, as last called, applied once to the normalised state of the revision it replaced, and the stored state is the last commit |
| `SyncProtocol.ExactlyOnce` | apps/web/src/state/profile-state.tsx:65-73 | no queued save commits twice; one reported saved has committed; one reported lost to a race has not and cannot any more |
| `SyncProtocol.CachesAreCoherent` | apps/web/src/state/profile-state.tsx:94-112 | a tab's cache is always the normalised state of the revision it names |
| `SyncProtocol.TabsCommitInOrder` | apps/web/src/state/profile-state.tsx:103-134 | one tab's saves commit in queue order, even past requests it gave up on |
| `SyncProtocol.HistoryIsKept` | services/api/src/profile_repository.cpp:187-263 | under the whole protocol the tables hold the last commit and exactly the last 200 revisions |
| `SavedRuns.CommitReadsBack` | apps/web/src/state/profile-state.tsx:66-68 | a tab's committed document is its update of the state before, and reads back, normalised, as exactly what was sent |
| `SavedRuns.FoldOfTabs` | apps/web/src/state/profile-state.tsx:58-76 | while only tabs commit, the state at any revision is the fold of the committed updates, in commit order, over the state it started from |
| `LoneTab.LoneTabRealises` | apps/web/src/state/profile-state.tsx:101-134 | any sequence of updates whose every prefix folds to an accepted state is what the protocol stores on some run: a lone tab queues, saves and is answered for each in turn |
| `SavedRuns.XpIsPaidOncePerCardAndDay` | apps/web/src/features/flashcards/FlashcardsPage.tsx:199-214 | over all tabs, races and retries with advancing days: no two payments for one card and day, and XP is the opening XP plus the payments |
| `SavedRuns.EvidenceSurvivesRaces` | apps/web/src/features/flashcards/FlashcardsPage.tsx:209-210 | the stored attempts are exactly the newest 200 recorded, unaltered and in order; once anything is recorded the newest is selected, and a selection retained before stays retained |
| `SavedRuns.NoSaveIsRefused` | services/api/src/state_validator.cpp:197-313 | over all tabs, races, retries and foreign writes, every request a page puts on the wire meets the validator's field and list rules and its replay of the scores |
| `SavedRuns.IdsArriveByCommit` | services/api/src/state_validator.cpp:235-242 | a recall save's attempt id is in a stored revision only if that save committed at or before it, or a foreign write at or before it held the id |
| `RewardLedger.ClaimsAndXpFollowTheLedger` | apps/web/src/features/flashcards/FlashcardsPage.tsx:201-212 | on every run the claim list is the last 1000 keys of everything ever paid and XP is the opening XP plus every payment |
| `RewardLedger.PaymentsAreFirsts` | apps/web/src/features/flashcards/FlashcardsPage.tsx:201-212 | on every run, while no repeat lapses, the payments are exactly the first payable attempts of each card and day, a function of the attempts alone |
| `RewardLedger.OncePerCardPerDay` | docs/typed-recall.md:32 | from an empty claim list, with days that never go back, no card is paid twice for one day |
| `RewardLedger.TwiceExactlyWhenLapsed` | apps/web/src/features/flashcards/FlashcardsPage.tsx:204-212 | for all runs, on the attempts alone: some card and day is paid twice exactly when some payable attempt repeats a card and day that is not among the last 1000 to have come first |
| `RewardLedger.PaidAgainIffAThousandSince` | apps/web/src/features/flashcards/FlashcardsPage.tsx:204-212 | a paid card and day is paid again exactly when a thousand payments have been made since |
| `RewardLedger.FirstRepeatNeedsAThousandOthers` | apps/web/src/features/flashcards/FlashcardsPage.tsx:204-212 | up to the first lapse, a card and day is paid again exactly when at least a thousand other cards and days have come first since it did |
| `RewardLedger.KeyIsInjective` | apps/web/src/features/flashcards/FlashcardsPage.tsx:199 | two reward keys are equal exactly for the same card and the same day |
| `RewardLedger.ADayHasAtMost150` | services/api/src/state_validator.cpp:17 | distinct claims of one day are at most the 150 card ids the pattern admits |
| `RecallRuns.FreshRecallsAreStored` | apps/web/src/features/flashcards/FlashcardsPage.tsx:200-214 | any number of well-formed attempts under ids of their own are saved and accepted one after another, up to the XP cap |
| `RewardLapse.AStoredRunIsPaidTwice` | apps/web/src/features/flashcards/FlashcardsPage.tsx:212 | a run of the whole protocol in which one tab saves scored attempts with their own ids, the service stores every one, days go back once, and a card and day is paid twice |
| `RecallHistory.NewestAttemptsAreKept` | apps/web/src/features/flashcards/FlashcardsPage.tsx:209-210 | for every run of updates the attempts are the newest 200 ever recorded, each as recorded, and the selection is the newest |
| `RecallHistory.SelectionStaysRetained` | apps/web/src/features/flashcards/FlashcardsPage.tsx:209-210 | on every run of page updates a selection that is empty or retained stays so |
| `RecallHistory.DanglingSelectionIsAccepted` | services/api/src/state_validator.cpp:189-280 | an accepted document that selects an attempt that does not exist |
| `Evidence.LatestAttempts` | apps/web/src/state/evidence.ts:6-13 | one entry for each attempted card, holding the attempt no other is later than and that comes first among equals |
| `Evidence.SavedAttemptIsShown` | apps/web/src/state/evidence.ts:6-13 | after a save the new attempt is shown as its card's latest exactly when no retained one is strictly later |
| `TextOrder.FirstDifferenceDecides` | apps/web/src/state/evidence.ts:10 | texts are ordered by their first difference, and a prefix comes first |
| `AcceptedSaves.RewardFollowsVerdict` | apps/web/src/state/evidence.ts:15-19 | on valid attempts: 10 XP exactly for strong, 5 exactly for developing, none exactly for needs-work |
| `AcceptedSaves.UpdateIsAccepted` | apps/web/src/features/flashcards/FlashcardsPage.tsx:200-214 | from an accepted state every well-formed update that parses is accepted again, exactly unless its attempt id is among the 199 newest |
| `AcceptedSaves.NormalizeKeepsAccepted` | packages/contracts/src/index.ts:59-74 | completing and trimming a stored state never makes the service reject it |
| `AcceptedSaves.ScoreOfTrimmed` | packages/contracts/src/index.ts:45 | the browser's wider trim changes no score, only the stored text |
| `Contracts.AtMost150Cards` | packages/contracts/src/index.ts:4 | any list of different ids matching the card pattern has at most 150 entries |
| `RewardLapse.CardsAreNamed` | services/api/src/state_validator.cpp:17 | the card pattern admits exactly f01 to f150 |
| `Contracts.TimestampForms` | services/api/src/state_validator.cpp:18-19 | UTC or an offset, with one to nine decimals or none, is accepted; ten decimals or no zone is not |
| `RecallText.TrimIsTheCore` | services/api/src/recall.cpp:43-51 | trimming returns the tight middle of any blank-tight-blank reading of a string |
| `RecallText.TrimOfOne` | services/api/src/recall.cpp:43-51 | exactly the space, tab, line feed and carriage return are trimmed |
| `RecallText.Tokenize` | services/api/src/recall.cpp:53-69 | the loop computes the token list the lemmas below are about |
| `RecallText.TokensConcat` | services/api/src/recall.cpp:53-69 | a separated concatenation tokenises to the concatenation of the token lists |
| `RecallText.TokensAreANormalForm` | services/api/src/recall.cpp:53-69 | joining a token list with spaces and tokenising again gives it back |
| `RecallText.TokensKeepTheLetters` | services/api/src/recall.cpp:53-69 | run together, the tokens are the text's ASCII letters and digits in lower case, none lost and none added |
| `RecallText.CountWords` | services/api/src/recall.cpp:71-86 | the loop with a flag computes the word count |
| `RecallText.WordsAreStarts` | services/api/src/state_validator.cpp:55-69 | the count is the number of positions where a run of non-blank characters starts, the six blanks spelled out |
| `RecallScorer.Validate` | services/api/src/recall.cpp:157-244 | the scoring method returns the specified result or error on every input |
| `RecallScorer.ScoredExactly` | services/api/src/recall.cpp:157-177 | exactly when an answer is scored, and which of the three errors it is otherwise |
| `RecallScorer.CollectConcepts` | services/api/src/recall.cpp:108-125 | the two-source loop with its seen-set lists the specified concepts |
| `RecallScorer.ConceptsAreAList` | services/api/src/recall.cpp:111-124 | concepts are at most eight, distinct, at least four characters and no stop words |
| `RecallScorer.ConceptsAreTheFirstEight` | services/api/src/recall.cpp:108-125 | a card's concepts are the first eight distinct significant words of its answer and then its deep dive |
| `RecallScorer.EquivalentToken` | services/api/src/recall.cpp:88-106 | the loop over synonym groups decides by the first group that lists the concept |
| `RecallScorer.SynonymByIndex` | services/api/src/recall.cpp:94-104 | a synonym counts exactly when some word of the first group listing the concept was said |
| `RecallScorer.MatchedSplits` | services/api/src/recall.cpp:193-199 | each concept is in exactly one list, none twice: in matched exactly when it was said or some word of the first group that lists it was |
| `RecallScorer.SynonymsCount` | services/api/src/recall.cpp:94-104 | for any word of the first group that lists a card's concept, a scored answer holding the word has the concept in matched |
| `RecallScorer.RubricSynonymsCount` | services/api/src/recall.cpp:23-34 | under the rubric any word of a concept's group will do, for its groups are disjoint |
| `RecallScorer.StructureEarned` | services/api/src/recall.cpp:205-222 | structure points from the answer itself: words, connectives, punctuation and scoping words, each for its own points |
| `RecallScorer.SpecificityEarned` | services/api/src/recall.cpp:224-235 | three points for each operational group named, whichever words and however often |
| `RecallScorer.CoverageIsNearest` | services/api/src/recall.cpp:201-203 | coverage is the whole number nearest to sixty times the matched share, halves up |
| `RecallScorer.CapsNeverBite` | services/api/src/recall.cpp:222-239 | the caps 25, 15 and 100 never change anything |
| `RecallScorer.RubricHasFiveGroups` | services/api/src/recall.cpp:36-42 | the rubric has the five specificity groups the caps are computed for |
| `RecallScorer.RescoringAgrees` | services/api/src/state_validator.cpp:293-295 | scoring a stored answer again gives the stored result |
| `RecallScorer.ResolvedNeedsAMajority` | services/api/src/recall.cpp:201-240 | a resolved answer matched strictly more than half of the concepts |
| `RecallScorer.ExtendingNeverHurts` | services/api/src/recall.cpp:157-244 | carrying on an accepted answer after a separator is accepted exactly within the two upper limits, and then no component, total or resolution goes down |
| `StateValidator.InspectShape` | services/api/src/state_validator.cpp:71-94 | one threaded counter accepts exactly the documents within the depth, size, key and node limits |
| `StateValidator.ValidateStringArray` | services/api/src/state_validator.cpp:96-110 | accepts exactly lists of at most eight distinct strings of 1 to 80 characters |
| `StateValidator.ValidateAttempt` | services/api/src/state_validator.cpp:112-165 | accepts exactly the attempts meeting every field, arithmetic, verdict and disjointness rule |
| `StateValidator.ValidateAttemptList` | services/api/src/state_validator.cpp:230-243 | accepts exactly at most 200 valid attempts with distinct ids |
| `StateValidator.Validate` | services/api/src/state_validator.cpp:189-280 | the document method accepts exactly the field and list rules, every field optional |
| `StateValidator.ValidateRecallEvidence` | services/api/src/state_validator.cpp:282-313 | the method accepts exactly valid documents whose rubric 2 attempts are reproduced field by field |
| `StateValidator.AuthenticAttemptsPass` | services/api/src/state_validator.cpp:282-313 | what the scorer returns, stored with an id and time, always replays, and is valid exactly when the card's concepts fit the list-entry limit |
| `SampleCards.LongConceptIsRefused` | services/api/src/state_validator.cpp:96-110 | on a card whose one concept has more than 80 characters, every scored answer is refused when saved |
| `SampleCards.LongConceptExists` | services/api/src/recall.cpp:108-125 | such a card and an answer to it that the scorer accepts |
| `Etag.EtagIsInjective` | services/api/src/api_server.cpp:103-105 | equal tags mean equal profile and revision, even for profile ids that contain `-r` and digits |
| `Etag.MatchesEtag` | legacy/api/server.py:211-218 | the loop over candidates finds exactly what the predicate says |
| `Etag.MatchMeansSameRevision` | legacy/api/server.py:211-218 | a printed tag matches another exactly for the same profile and revision |
| `Etag.ListsMatchByParts` | legacy/api/server.py:211-218 | a header list names a tag exactly when one of its parts does, wherever it is cut |
| `Etag.TagIsNamed` | legacy/api/server.py:211-218 | a tag is named by itself, weak or not, with blanks around it, and by the asterisk |
| `Etag.WeakTagsWork` | legacy/api/server.py:211-227 | a weak tag still matches and still parses to its revision |
| `Etag.ParseInvertsPrint` | legacy/api/server.py:221-227 | parsing a printed tag gives its revision for its own profile and is rejected for every other |
| `Etag.AcceptedTagsNameTheProfile` | legacy/api/server.py:221-227 | every accepted value is a tag of this profile; only leading zeros and the weak mark are forgiven |
| `LegacyBrowser.OpsPersistence.FinishLoad` | legacy/web/persistence.js:48-56 | what a load answer leaves in tag and body, and what the caller gets |
| `LegacyBrowser.OpsPersistence.FinishSave` | legacy/web/persistence.js:57-69 | what a save answer leaves in tag and body, and what the caller gets |
| `LegacyBrowser.NotModifiedIsHonest` | services/api/src/api_server.cpp:245-258 | at the moment the service answers 304, the body its asker held when asking is the stored record (section 13.1.2 of RFC 9110) |
| `LegacyBrowser.LateNotModified` | legacy/web/persistence.js:48-56 | when a 304 arrives, the body `load` returns is the one the service confirmed exactly when the browser's tag is still the tag the 304 names |
| `LegacyBrowser.OvertakenLoadIsStale` | legacy/web/persistence.js:52 | a run in which an overtaken load makes `load` return revision 1 on a 304 that confirmed revision 2, still the stored one |
| `LegacyBrowser.CachesStayCoherent` | legacy/web/persistence.js:48-69 | on every run tag and body describe one committed revision, and a delivered 304 always finds a body |
| `GaltonEngine.SanitizeFixesExactlyTheLegal` | apps/web/src/features/galton/galton-engine.ts:59-73 | the sanitiser leaves a configuration alone exactly when it is legal, so sanitising twice is sanitising once |
| `GaltonFields.SanitizeIsNearest` | apps/web/src/features/galton/galton-engine.ts:59-73 | every field becomes the legal value nearest to the one asked for, whole where it must be, or its default when that is no number |
| `GaltonFields.SanitizedSeed` | apps/web/src/features/galton/galton-engine.ts:64 | the seed keeps the low 32 bits of the rounded number |
| `GaltonEngine.EveryNodeIsACoin` | apps/web/src/features/galton/galton-engine.ts:79-97 | whatever the equation and whatever `sin` returns, every node is a genuine coin |
| `GaltonFields.FieldStaysInRange` | apps/web/src/features/galton/galton-engine.ts:96 | every node's chance lies between 2 and 98 percent |
| `GaltonFields.SlopeLaw` | apps/web/src/features/galton/galton-engine.ts:79-94 | along a row the unclamped chance changes by 2/row for each step right, times the drift for linear and wave, minus the pull for the attractor, and not at all for the constant field |
| `GaltonFields.MirrorLaw` | apps/web/src/features/galton/galton-engine.ts:75-94 | nodes placed symmetrically in a row average to the row's level, as far as neither is clamped |
| `GaltonFields.MiddleOfTheRow` | apps/web/src/features/galton/galton-engine.ts:79-96 | the middle node of a row has exactly the row's level, clamped |
| `GaltonFields.RowLevelSpelled` | apps/web/src/features/galton/galton-engine.ts:81-94 | the levels: base, a ramp from base - rowDrift to base + rowDrift, or base plus amplitude times the sine at the row's angle |
| `GaltonFields.RightwardOrder` | apps/web/src/features/galton/galton-engine.ts:84-94 | clamped or not, chances rise to the right with the drift and fall to the right under the pull |
| `GaltonEngine.ConstantFieldUnclamped` | apps/web/src/features/galton/galton-engine.ts:96 | the 0.02 to 0.98 clamp never moves a legal constant field |
| `GaltonPaths.ExpectedDistribution` | apps/web/src/features/galton/galton-engine.ts:110-127 | the row-by-row arrays end as, bin by bin, the sum over all left/right paths with that many rights of the product of their step probabilities |
| `GaltonPaths.SpreadRow` | apps/web/src/features/galton/galton-engine.ts:115-124 | one in-place pass turns the path sums of a row into those of the next |
| `GaltonPaths.EveryPathCountsOnce` | apps/web/src/features/galton/galton-engine.ts:110-127 | the reference sum visits each path of the right length once and no other |
| `GaltonPaths.PathMassStep` | apps/web/src/features/galton/galton-engine.ts:117-122 | the exponential sum obeys the one-row recurrence |
| `GaltonMoments.SummarizeDistribution` | apps/web/src/features/galton/galton-engine.ts:129-141 | the two passes compute mean and deviation, and zero for a total that is not positive |
| `GaltonMoments.ExpectedDistributionIsProbability` | apps/web/src/features/galton/galton-engine.ts:110-127 | every entry is non-negative and they sum to exactly 1, for every equation and input |
| `GaltonMoments.ConstantFieldIsBinomial` | apps/web/src/features/galton/galton-engine.ts:110-127 | on a constant field the path sums are the binomial terms |
| `GaltonMoments.ConstantBoard` | apps/web/src/features/galton/galton-engine.ts:110-141 | every legal constant board: binomial bins, mean R*p, variance R*p*(1-p) |
| `GaltonFields.BalancedBoard` | apps/web/src/features/galton/galton-engine.ts:110-141 | a board whose rows all level at one half has a palindromic distribution with mean R/2, whatever drift or pull acts across a row |
| `GaltonFields.RampBoard` | apps/web/src/features/galton/galton-engine.ts:84-85 | an unclamped linear board without spatial drift has mean R times the base, whatever its row drift |
| `GaltonSimulation.SimulateGalton` | apps/web/src/features/galton/galton-engine.ts:143-172 | for any draws, every ball's packed path and outcome are those of one trace through the field, beside the expected distribution and its summary |
| `GaltonSimulation.SimulatedBall` | apps/web/src/features/galton/galton-engine.ts:149-160 | each path is below 2^rows, has as many set bits as its outcome, reads back turn by turn, and its outcome is a legal bin |
| `GaltonCanvas.ParticlePosition` | apps/web/src/features/galton/GaltonCanvas.tsx:19-42 | the accumulating loop computes the specified position |
| `GaltonCanvas.TraceEndsOverItsBin` | apps/web/src/features/galton/GaltonCanvas.tsx:145 | at progress 1 a ball stands exactly at the x of the bin that counts it |
| `GaltonCanvas.PositionIsContinuous` | apps/web/src/features/galton/GaltonCanvas.tsx:28-39 | the drawn x is Lipschitz in progress across all row boundaries, with one bound for every path |
| `GaltonPlayer.Player.Advance` | apps/web/src/features/galton/galton-playback.ts:38-71 | the in-place scheduler refines the specified step and keeps its validity |
| `GaltonPlayer.Player.LandDue` | apps/web/src/features/galton/galton-playback.ts:62-70 | the filter whose callback counts settles exactly the due cohorts and keeps the rest in order |
| `GaltonPlayer.PlaySimulation` | apps/web/src/features/galton/GaltonCanvas.tsx:237 | a fresh player of any simulated board starts valid and well-formed, so every run theorem applies to it |
| `GaltonPlayer.SimulationsArePlayable` | apps/web/src/features/galton/galton-engine.ts:143-172 | what the simulator returns has one legal outcome for each ball, which is what the player needs |
| `GaltonPlayer.BinsCountTheSettled` | apps/web/src/features/galton/galton-playback.ts:46-70 | for any deltas and speeds: cohorts are disjoint stretches of the released balls, bins are the histogram of exactly the others, and sum to processed <= released <= ballCount |
| `GaltonPlayer.CompletionShowsEverything` | apps/web/src/features/galton/galton-playback.ts:36 | at completion bins are the histogram of all outcomes, with no cohort and no trace left |
| `GaltonPlayer.TracesAreInFlight` | apps/web/src/features/galton/galton-playback.ts:43-58 | at most 800 traces, distinct balls, each still in the air |
| `GaltonPlayer.PlaybackFinishes` | apps/web/src/features/galton/galton-playback.ts:4-8 | once playback time reaches ballCount/0.6 + 2250 ms it is complete, for any speeds |
| `GaltonPlayer.ReleasedExactly` | apps/web/src/features/galton/galton-playback.ts:46-49 | on every run the balls released are the whole part of the offered milliseconds times 0.6, 3.5 or 15 by frame, as far as there are balls |
| `GaltonPlayer.FrameCohort` | apps/web/src/features/galton/galton-playback.ts:49-70 | a frame adds at most one cohort, the balls leaving in it, landing 2200, 1350 or 760 ms after the frame, and drops exactly those due |
| `GaltonPlayer.SteadyCompletion` | apps/web/src/features/galton/galton-playback.ts:4-8 | at one speed playback completes no earlier than ballCount/rate plus the air time, and for certain 50 ms after that |
| `GaltonPlayer.MotionNeverChangesCounts` | apps/web/src/features/galton/galton-playback.ts:43-60 | reduced motion, switched at any frames, changes nothing but the traces |
| `GaltonPlayback.SettleConserves` | apps/web/src/features/galton/galton-playback.ts:62-70 | landing moves balls from the air to the histogram, ball for ball and bin for bin |
| `GaltonPlayback.SamplesAreDistinct` | apps/web/src/features/galton/galton-playback.ts:53-58 | a cohort's samples are strictly increasing ball indices inside it |
| `PracticeHistory.ValidatePracticeHistory` | legacy/api/server.py:963-1128 | at every version: before 19 exactly the score and date rules, from 19 on exactly the declarative history |
| `PracticeHistory.ValidateRuns` | legacy/api/server.py:987-1128 | the two passes accept exactly valid runs with distinct ids, a known selection, and every present source obeyed |
| `PracticeHistory.ValidateRun` | legacy/api/server.py:1009-1117 | one run's checks, in order, accept exactly the declarative run |
| `PracticeHistory.AncestorsContain` | legacy/api/server.py:1122-1128 | along any chain of replay and repair links, cyclic or not, a run's questions are a subsequence of every ancestor's |
| `PracticeHistory.OpenAtEveryRepair` | legacy/api/server.py:1094-1128 | a question still asked at the end of a chain was left unresolved at every repair along it |
| `PracticeHistory.CyclesResolveNothing` | legacy/api/server.py:1122-1128 | on a cycle of links all runs ask the same list, and every repair source on it resolved none of it |
| `PracticeHistory.CyclesAreAccepted` | legacy/api/server.py:1109-1128 | for any two ids, an accepted history in which two runs are each the other's repair, so cycles do occur |
| `PracticeHistory.UnresolvedExactly` | legacy/api/server.py:1094-1098 | a question is left for repair exactly when its outcome is not "clean" or its calibration is "overconfident" |
| `PracticeHistory.RepairListExactly` | legacy/api/server.py:1105-1106 | on an accepted run the repair list names exactly the questions not answered cleanly or answered with overconfidence |
| `PracticeHistory.PerfectButOverconfident` | legacy/api/server.py:1088-1106 | an accepted run with score 100 and a question still to repair |
| `PracticeHistory.ScoreIsNearest` | legacy/api/server.py:1093 | the score is the whole number nearest to the weighted share of clean and recovered answers |
| `PracticeHistory.ScoresDoNotLie` | legacy/api/server.py:1088-1106 | score 100 exactly when all outcomes are clean, 0 exactly when none is clean or recovered, an empty repair list forces 100, and the counters add up |
| `TrainingPlans.ValidateTrainingPlans` | legacy/api/server.py:1131-1261 | the nested accumulator loops accept exactly the declarative predicate over plans and the active id |
| `TrainingPlans.ValidatePlan` | legacy/api/server.py:1141-1252 | one plan's accumulators accept exactly the declarative plan |
| `TrainingPlans.BudgetIsInclusive` | legacy/api/server.py:1236-1237 | an accepted plan stays accepted under another budget exactly when that is one of the four and its minutes do not exceed it |
| `TrainingPlans.ValidateItem` | legacy/api/server.py:1188-1233 | one block's checks accept exactly its field and ordering rules |
| `TrainingPlans.OneActiveBlock` | legacy/api/server.py:1236-1261 | at most one block is active across all plans, in the active plan, the one named |
| `TrainingPlans.TimesAreOrdered` | legacy/api/server.py:1218-1252 | created, started, completed, closed and updated times are in that order wherever present |
| `TrainingPlans.IdleMeansNothingActive` | legacy/api/server.py:1255-1261 | no id is named exactly when no plan is active, and then no block is |

## Left out

- `GaltonSimulation.SimulateGalton`: the generator's bit arithmetic (galton-engine.ts:99-108) is not modelled; draws are an arbitrary stream, `sin` and `sqrt` arbitrary functions, and doubles are reals without rounding.
- `GaltonPaths.ExpectedDistribution`: proved over reals, so the rounding of sums and products in doubles is not covered.
- `PracticeHistory.ValidatePracticeHistory`: dates and times enter as parsed values; an entry with a field missing or of the wrong type enters as one without a run.
- `TrainingPlans.ValidateTrainingPlans`: dates and times enter as parsed values, and JSON type errors are excluded by the types.
- `StateValidator.ValidateAttempt`: values have their JSON types already; lengths count characters, which are bytes for ASCII text.
- `SavedRuns.NoSaveIsRefused`: does not extend to the 1.9 MB, node, depth and key limits on the serialised state; unknown fields ride along at any size, so a stored state near a limit can be pushed over it by any save.
- `ProfileState.SaveProfileUpdate`: the schema's calendar check of timestamps is modelled by the service's digit pattern, and the reading positions `flashIndex` and `flashRevealed` travel as text in `rest`.
- `SyncProtocol.StepKeeps`: network duplication of a request, React rendering, stale-time policy and timers are left out; a background read is an action that may happen at any time with any committed revision.
- `LegacyBrowser.NotModifiedIsHonest`: request timeouts and the retry of reads appear only as lost or late requests.
- JSON and JSONB fidelity, HTTP routing, headers other than the conditional ones, `updated_at` clock values, and Unicode or locale-dependent character classes are assumed away.
- PostgreSQL is assumed to give read-committed visibility, transaction-scoped advisory locks and atomic commit; `ProgressStore.save` in legacy/api/server.py follows the same scheme over SQLite and is not modelled a second time.
- Coach, triage, shift, scenario, remediation, transfer and question-statistics validators, `recallSummary` and `rankProgress` are per-field bounds or sums that would only add easy members.
- The catalogue loader, the preview gateway, the cloudflared supervisor, the scripts and the curriculum content.

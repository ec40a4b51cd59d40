# Verification of the meeting-intelligence core

A Dafny model of the deterministic core of the meeting-intelligence copilot, with proofs of the laws it lives by.
`dafny verify dfyconfig.toml` checks the whole project.

## What is modelled

**The meeting engine.** `Engine.MeetingEngine` is a class with the engine's two fields, `state` and `seen`, and its
operations: hear an event, decide an identity, confirm a semantic hint, and rebuild from a stored state. Each method is
a loop-by-loop rendering of the program's method and is proved equal to a function (`Hear`, `Decide`, `Confirm`) over
which the laws are stated; `Runs` folds these functions over arbitrary sequences of calls from the empty state.

- `Contracts`, `Templates`: the records, and the registry of ten categories with their slots.
- `Analyzer`: the interface of the analyzer. Language rules and identity extraction are parameters; attaching one
  identity per category to detections and facts is modelled.
- `Reducer`: problem detection with promotion, fact routing, the fact lifecycle, gaps, identity decisions.
- `Identity`: keys, aliases and merge links as a union-find. The reducer searches aliases; `Root` chases merge links.
- `Facts`, `FactLinks`: laws of the append-only fact log. Every engine operation acts on the log as `AbsorbAll` over
  some list of routed facts, so history, links, counts and isolation are proved once for `AbsorbAll`.
- `EngineLaws`, `HearLaws`, `Routing`: the normal form of an accepted event, the isolation of its backfill, who receives
  a fact, and what an ambiguous identity leaves alone.
- `Invariants`, `Runs`: the invariant of every reachable state and the laws over whole runs.
- `Detections`, `Statements`, `FactOutcomes`, `DecisionLaws`, `Books`: what each call does, told by the fields of the
  problems, facts, decisions and counters of the states before and after it, without the functions that compute it.
- `FactIds`: when fact ids stay unique. `Meetings`, `Witnesses`, `OwnerWitnesses`: short runs on which natural-looking
  properties fail.
- `Selection`, `Questions`: ranking and selection of questions. `Urgency`: which questions are published, told by the
  signals, ages and priorities of the open gaps. `Drafts`, `Readers`: issue drafts as a second reader of
  the facts, and when it agrees with the gap table.
- `Review`: the pairs offered for an identity decision, and why the review ends.

**Four self-contained services.** `RateLimiter` (gateway), `Glossary` (greedy entity matching), `Reconciliation` with
`Findings` (fulfilment), and `Calendar` with `ErpAnalytics`, `ErpRows`, `ErpLaws`, `ErpValues` and `ErpLimits` (ERP
trends).

## What the proofs found

Some properties that look natural do not hold for the code. For each there is a run of the engine (or an input of the
service) on which it fails, in `Witnesses` unless another module is named, and a lemma for all inputs that says exactly
when it holds.

- **Lineages are one level deep.** After A is merged into B and B into C, active facts of A answer nothing, and C is
  asked again (`SecondMergeLosesAnswer`). After a merge a slot of the survivor is answered exactly when it was answered
  before or the merged problem itself holds an active fact of it (`GapLaws.MergeAnswersIff`); lineages are inherited
  whole exactly when nothing had been merged into the merged problem (`GapLaws.MergeInheritsLineage`).
- **The draft can show another fact than the gap names.** The gap names the first active fact of a slot and the draft
  shows the last (`MergedDraftShowsOtherFact`). After any merge the two agree exactly when the first and the last active
  fact of the two sides have one value (`Readers.MergedReadersAgreeIff`). As long as merges join sides that share no
  answered slot they always agree (`Readers.CarefulRunsAgree`), and the first merge that does share one separates them
  exactly when the sides hold different values (`Readers.CarefulThenMergeIff`).
- **A newer statement need not become current after a merge** (`SupersedingLeavesOlderValue`). The gap that a hint
  publishes is resolved by the hint exactly when the fact it supersedes was the only active one
  (`Readers.HintResolvesIff`, from `FactLinks.SupersedingResolvesIff`).
- **Fact ids repeat** when a hint reuses the number of the event it cites (`RepeatedNumberCollides`) or states two
  values for one slot (`TwoValuesCollide`); a fact then supersedes its own id. Over any run ids are unique exactly when
  each statement of each call repeats the value it meets or has a number new to its problem and slot
  (`FactIds.IdsUniqueIff`). When events have numbers of their own, in any order, and name each slot once, only hints can
  repeat an id (`FactIds.NumberedIdsIff`). For calls that name each slot once the state before the call decides
  (`FactIds.HintOwnIdsIff`, `FactIds.EventOwnIdsIff`).
- **An owner named without a key can reach two problems.** Named after both are open it is withheld from both
  (`OwnerWitnesses.OwnerReachesNeither`); named shortly before, it is replayed to both
  (`OwnerWitnesses.OwnerReachesBoth`). One event's owners reach two problems exactly when both problems are new, each is
  the only open one of its category, and the event is context and names an owner for both
  (`Routing.OwnersReachTwoIff`, from `Routing.UnkeyedFactReachesIff`).
- **A repeated identity decision can return another decision** (`RepeatReturnsOther`). The call returns the decision
  that was asked for exactly when it is new or was recorded last (`Runs.ReturnedDecisionIff`).
- **A 731-day window can have 732 points**, one more than the contract of a trend series allows
  (`ErpLimits.NoonWindowOverflows`). No series of a window can have more than 731 exactly when the window ends by the
  731st midnight after the day it starts in (`ErpLimits.PointLimitIff`).

## Model

| member | source | states |
|---|---|---|
| Templates.StandardWellFormed | apps/api/app/domain/templates.py:766-912 | in the shipped registry the slots of a template are distinct and every required slot is a template slot |
| Analyzer.Identified | apps/api/app/services/analyzer.py:2059-2075 | exactly one detection for each proposed category, with the event as evidence and the identity extracted for the category |
| Analyzer.Keyed | apps/api/app/services/analyzer.py:2076-2088 | a fact carries the key of the detection of its category, or none |
| Analyzer.DetectionsAre | apps/api/app/services/analyzer.py:2059-2075 | a final event detects, for each category the rules name and no other, the identity extracted for it with the event as evidence |
| Reducer.FindOwner | apps/api/app/domain/reducer.py:51-63 | the alias search finds the first unmerged problem of the category that answers to the key, and misses none |
| Reducer.PromotionTarget | apps/api/app/domain/reducer.py:64-84 | a problem is renamed if and only if it is the only recent provisional one and nothing anchored competes |
| Reducer.Selected | apps/api/app/domain/reducer.py:395-397 | the two selected problems in list order, and none unless exactly two are selected |
| Reducer.FindAmbiguousKeys | apps/api/app/domain/reducer.py:237-266 | the loop collects exactly the ambiguous keys |
| Reducer.ApplyAnalysis | apps/api/app/domain/reducer.py:30-226 | the two loops over detections and facts compute the reduction that all laws are about |
| Reducer.ComputeGaps | apps/api/app/domain/reducer.py:323-371 | the nested loops compute the gap table that GapLaws.GapTable gives a meaning |
| Identity.AliasSearchFindsRoot | apps/api/app/domain/reducer.py:51-63 | for any key of any problem, retired or not, alias search finds exactly the root reached over merge links |
| Identity.MintedIdIsFresh | apps/api/app/domain/reducer.py:102-116 | an id minted for a key nobody owns is new, although keys are renamed after ids are minted |
| Identity.DetectKeeps | apps/api/app/domain/reducer.py:50-131 | created, promoted or found again: the key partition and the merge forest survive, old problems keep their place, and the detected key is owned |
| Identity.OwnershipPersists | apps/api/app/domain/reducer.py:50-131 | a key owned once is owned ever after, and keys owned together stay together |
| Detections.EventDetects | apps/api/app/domain/reducer.py:50-131 | for each category the rules find in an accepted event: a known key finds its owner again and adds at most evidence, a new anchored key renames the sole recent provisional problem and anchors it, any other new key gets a problem of its own, and nothing else of the category changes |
| Detections.UndetectedUntouched | apps/api/app/domain/reducer.py:50-131 | an accepted event leaves the problems of every other category as they were |
| Detections.HintDetects | apps/api/app/services/meeting_engine.py:173-219 | the same for the identity of an accepted hint, extracted from the latest event it cites |
| Detections.AnchoredOwner | apps/api/app/domain/reducer.py:77-116 | the owner of an anchored key that nobody owned is anchored afterwards and named by that key |
| Detections.AnchoredKeysStayApart | apps/api/app/domain/reducer.py:77-116 | on runs that merge nothing two anchored keys of one category, each first detected as anchored, never have one owner |
| Identity.RootAfterMerge | apps/api/app/domain/reducer.py:405-440 | a merge redirects exactly the problems whose root was the merged one |
| Identity.MergeCounts | apps/api/app/domain/reducer.py:430-440 | a merge retires exactly one problem: one more retired, one fewer unmerged |
| Identity.MergeKeeps | apps/api/app/domain/reducer.py:405-440 | a merge keeps the partition and the forest, and only extends the history of problems |
| Identity.PairDecided | apps/api/app/domain/reducer.py:395-444 | deciding two unmerged problems of one category for the first time succeeds: both stay, or the named or earlier one absorbs the other |
| Identity.DecisionKeeps | apps/api/app/domain/reducer.py:386-444 | every accepted decision keeps the identity structure |
| DecisionLaws.MergeOutcome | apps/api/app/domain/reducer.py:404-444 | a first merge keeps the named survivor, else the problem created earlier, the smaller key on ties; it takes over keys and evidence, the other is retired and points to it, no fact changes, and the decision is recorded with the survivor |
| DecisionLaws.SeparateOutcome | apps/api/app/domain/reducer.py:401-402 | a first decision to keep apart is recorded and changes no problem and no fact |
| DecisionLaws.AnswerIff | apps/api/app/services/meeting_engine.py:129-150 | which decisions go through, and which error each of the others gets |
| Facts.AbsorbAllEvolves | apps/api/app/domain/reducer.py:146-226 | facts are never removed, reordered or renamed, evidence only grows, and only active facts change status |
| Facts.RestrictAbsorbAll | apps/api/app/domain/reducer.py:146-226 | the log restricted to some problems is the fold of the facts routed to those problems |
| FactLinks.MeetKeepsLinks | apps/api/app/domain/reducer.py:192-224 | corroborating, contradicting or superseding a fact keeps ids unique and every link resolved both ways |
| FactLinks.AbsorbAllKeepsLinks | apps/api/app/domain/reducer.py:146-226 | links survive any list of routed facts that are newer than what they meet |
| FactLinks.ChainEnds | apps/api/app/domain/reducer.py:218-224 | from any fact a chain of successors with growing creation order leads to a fact that nothing supersedes |
| FactLinks.AbsorbActiveCount | apps/api/app/domain/reducer.py:178-224 | a statement moves the active count of its own lineage and slot to at most max(1, before) and no other |
| FactLinks.NewestStatementWins | apps/api/app/domain/reducer.py:178-224 | with at most one active fact, the newest value is current afterwards with its evidence, unless it contradicts; then nothing is current |
| FactLinks.SupersedingResolvesIff | apps/api/app/domain/reducer.py:178-224 | a superseding statement answers the slot exactly when the fact it supersedes was the only active one |
| Statements.EventFactsAreStated | apps/api/app/domain/reducer.py:297-320 | every fact an accepted event adds says what the event or one of its context says, under the number and with the id of that event, and all evidence gained is of those events |
| Statements.HintSpeaksForLatest | apps/api/app/services/meeting_engine.py:169-219 | every fact an accepted hint adds has the number of the latest event it cites, the first cited on ties, and its id as evidence |
| FactOutcomes.EventStatementsApply | apps/api/app/domain/reducer.py:180-224 | an accepted event works its routed statements into the log one by one, each corroborating, contradicting or superseding the first active fact of its slot and lineage, or added if there is none |
| FactOutcomes.HintStatementsApply | apps/api/app/domain/reducer.py:180-224 | the same for an accepted hint |
| FactOutcomes.HintStatementsRouted | apps/api/app/services/meeting_engine.py:176-219 | all statements of an accepted hint go in order to the owner of the key of its identity, or nowhere if several provisional problems could be meant |
| Sequences.DedupeKeepsOrder | apps/api/app/domain/reducer.py:374-375 | what stays after removing repeats stands in the order of first appearance |
| GapLaws.GapTable | apps/api/app/domain/reducer.py:329-371 | which gaps exist, base priority the place of the slot in its template, answered exactly with an active fact in the lineage, resolved by such a fact, reopen count one higher exactly on answered to open |
| GapLaws.GapsInOrder | apps/api/app/domain/reducer.py:331-370 | gaps are listed by problem, and for one problem in template order |
| GapLaws.GapsIdempotent | apps/api/app/domain/reducer.py:323-371 | recomputing with unchanged problems and facts changes nothing, reopen counts included |
| GapLaws.LineagesDisjoint | apps/api/app/domain/reducer.py:378-383 | lineages of different unmerged problems share nothing |
| GapLaws.MergeLineages | apps/api/app/domain/reducer.py:378-440 | a merge adds the merged problem alone to the survivor's lineage and leaves all others |
| GapLaws.MergeKeepsAnswers | apps/api/app/domain/reducer.py:378-440 | answered slots of unmerged problems stay answered through a merge |
| GapLaws.MergeInheritsLineage | apps/api/app/domain/reducer.py:378-440 | the survivor inherits the whole lineage of the merged problem exactly when nothing was merged into it |
| GapLaws.MergeAnswersIff | apps/api/app/domain/reducer.py:338-383 | after a merge a slot of the survivor is answered exactly when it was before or the merged problem itself holds an active fact of it |
| Witnesses.SecondMergeLosesAnswer | apps/api/app/domain/reducer.py:378-383 | a run of three events and two merges after which an active fact no longer answers |
| EngineLaws.ReplayAbsorbs | apps/api/app/services/meeting_engine.py:255-297 | the replay changes no problem and absorbs its routed facts in transcript order |
| EngineLaws.ReplayRoutesMatch | apps/api/app/services/meeting_engine.py:255-296 | what the replay routes to a new problem is exactly the matching facts of the context, and it routes to nobody else |
| HearLaws.ContextMeaning | apps/api/app/services/meeting_engine.py:248-254 | the context is, in transcript order, the last four events without those that ended more than thirty seconds before the last one |
| HearLaws.HearNormalForm | apps/api/app/services/meeting_engine.py:75-106 | an accepted event absorbs one list of routed facts; the facts the backfill deletes leave no trace |
| HearLaws.BackfillIsIsolated | apps/api/app/services/meeting_engine.py:92-106 | facts of each problem the event creates are the fold, from none, of the matching context facts; no other fact changes |
| HearLaws.HearKeepsLinks | apps/api/app/services/meeting_engine.py:62-127 | an in-order event keeps ids unique and links resolved, backfill included |
| Routing.KeyedFactsGoToOwners | apps/api/app/domain/reducer.py:147-178 | a keyed fact that is not ambiguous goes to the owner of its own key, so the resolved-instance table never redirects it elsewhere |
| Routing.KeyedFactReachesIff | apps/api/app/services/meeting_engine.py:75-106 | a fact with a key reaches an older problem exactly from the event itself, under any key the problem answers to, unless several provisional problems could be meant; a new one exactly from the context, under its own key |
| Routing.UnkeyedFactReachesIff | apps/api/app/services/meeting_engine.py:75-106 | a fact without a key reaches the only open problem of its category: an older one from the event itself, an owner only if no other open problem could be meant; a new one from any event of the context, without that test |
| Routing.OwnersReachTwoIff | apps/api/app/services/meeting_engine.py:75-106 | owners that one event names without a key reach two problems exactly when the accepted event creates both, each is the only open one of its category, and the naming event is context and names an owner for both |
| OwnerWitnesses.OwnerReachesBoth | apps/api/app/services/meeting_engine.py:255-285 | an owner named for two categories just before their problems are stated is replayed to both |
| OwnerWitnesses.OwnerReachesNeither | apps/api/app/domain/reducer.py:133-153 | the same owner named after both problems are stated reaches neither |
| Routing.AmbiguityNeverGuesses | apps/api/app/services/meeting_engine.py:75-106 | an ambiguous identity renames nobody, gets its own problem, and leaves all facts of its category as they were |
| Invariants.HearKeeps | apps/api/app/services/meeting_engine.py:62-127 | an event keeps the engine invariant and only extends history |
| Invariants.DecideKeeps | apps/api/app/services/meeting_engine.py:129-162 | a decision keeps the engine invariant and only extends history |
| Invariants.ConfirmKeeps | apps/api/app/services/meeting_engine.py:164-234 | a confirmed hint keeps the engine invariant and only extends history |
| Engine.MeetingEngine.FromState | apps/api/app/services/meeting_engine.py:51-60 | a rebuilt engine remembers the stored state and its event ids, and always allows promotion |
| Engine.MeetingEngine.Apply | apps/api/app/services/meeting_engine.py:62-127 | returns whether the event was final and new, and leaves exactly the state of Hear |
| Engine.MeetingEngine.ReduceEvent | apps/api/app/services/meeting_engine.py:74-106 | analysis, reduction and backfill of one event |
| Engine.MeetingEngine.BackfillNewPainContext | apps/api/app/services/meeting_engine.py:236-297 | the replay loops compute the backfill |
| Engine.MeetingEngine.DecideIdentity | apps/api/app/services/meeting_engine.py:129-162 | every error leaves the engine unchanged; otherwise the state of Decide and the last recorded decision |
| Engine.MeetingEngine.ConfirmSemanticHint | apps/api/app/services/meeting_engine.py:164-234 | foreign or unsupported hints fail without a change, repeated hints return false, others leave the state of Confirm |
| Runs.Reachable | apps/api/app/services/meeting_engine.py:37-297 | the invariant holds after every sequence of events, decisions and hints |
| Books.TranscriptIsHeard | apps/api/app/services/meeting_engine.py:65-121 | the transcript lists the final events of the run with ids not heard before, in order, and its last event gives the last number |
| Books.VersionCountsSuccesses | apps/api/app/services/meeting_engine.py:113-124 | the version is the number of calls that went through, and the confirmed hints are those that did, each once |
| Books.FailureChangesNothing | apps/api/app/services/meeting_engine.py:62-234 | a call that does not go through leaves the engine as it was |
| Books.HintAnswerIff | apps/api/app/services/meeting_engine.py:164-172 | which hints go through, which session error is raised, and that a repeated hint changes nothing |
| Runs.HistoryAppendOnly | apps/api/app/domain/reducer.py:190-224 | between any two moments of a run problems and facts keep their place, id and creation, and retired problems are frozen |
| Runs.EverythingTraced | apps/api/app/domain/contracts.py:103-136 | evidence of problems and facts is never empty and names transcript events, transcript ids are distinct, and every fact has its problem |
| Runs.IdentityPartition | apps/api/app/domain/reducer.py:50-131 | in every reachable state ids are distinct, keys of unmerged problems are disjoint, and alias search agrees with pointer chasing |
| Runs.DetectedKeysStayOwned | apps/api/app/domain/reducer.py:50-131 | every key ever detected has exactly one unmerged owner at every later moment |
| Runs.KeysStayTogether | apps/api/app/domain/reducer.py:405-440 | keys owned together at some moment are owned together ever after |
| Runs.LinksResolveAlways | apps/api/app/domain/reducer.py:190-224 | on runs in increasing order fact ids are unique and all links resolve both ways |
| FactIds.HintKeepsIdsIff | apps/api/app/services/meeting_engine.py:205-219 | after any hint ids are unique exactly when they were and each statement in turn repeats the value it meets or has a number new to its problem and slot |
| FactIds.HintOwnIdsIff | apps/api/app/services/meeting_engine.py:205-219 | for a hint that names each slot once the state before the call decides |
| FactIds.EventKeepsIdsIff | apps/api/app/services/meeting_engine.py:62-106 | the same for any accepted event, the statements it replays included |
| FactIds.EventOwnIdsIff | apps/api/app/services/meeting_engine.py:62-106 | for an event that names each slot once, with a context that does too under different numbers, only statements to older problems can repeat an id, and the state before the call decides |
| FactIds.ReplayedDiffers | apps/api/app/services/meeting_engine.py:255-296 | replaying events with different numbers, in any order, never makes one id twice |
| FactIds.IdsUniqueIff | apps/api/app/domain/reducer.py:297-320 | over any run ids are unique exactly when every call of it kept them unique |
| FactIds.NumberedIdsIff | apps/api/app/domain/reducer.py:297-320 | on runs whose events have numbers of their own, in any order, and name each slot once, ids are unique exactly when every accepted hint kept them unique |
| Witnesses.RepeatedNumberCollides | apps/api/app/domain/reducer.py:308-308 | a run of one event and one hint that makes a fact supersede its own id |
| Witnesses.TwoValuesCollide | apps/api/app/domain/reducer.py:308-308 | a run of one event without facts and one hint with two values for a slot, after which two facts have one id |
| Runs.ReopenCountIsExact | apps/api/app/domain/reducer.py:350-369 | reopen_count is the number of times the gap went from answered to open over the run |
| Runs.GapsAreCurrent | apps/api/app/domain/reducer.py:332-371 | in every reachable state the table tracks the slots of unmerged problems, answered exactly with an active fact |
| Runs.GapsAlwaysSettled | apps/api/app/services/meeting_engine.py:107-107 | at every moment recomputing the gaps would change nothing |
| Runs.RepeatedDecisionChangesNothing | apps/api/app/services/meeting_engine.py:148-161 | repeating a decision keeps problems, facts, gaps and decisions and adds one to the version |
| Runs.ReturnedDecisionIff | apps/api/app/services/meeting_engine.py:148-162 | the returned decision is the one asked for exactly when it is new or was recorded last |
| Witnesses.RepeatReturnsOther | apps/api/app/services/meeting_engine.py:162-162 | a run of two decisions after which repeating the first returns the second |
| Runs.DecisionsNeverReopen | apps/api/app/services/meeting_engine.py:148-161 | no identity decision reopens a gap |
| Runs.StepActiveBound | apps/api/app/domain/reducer.py:146-226 | events and hints never raise the active count of a slot in a live lineage above max(1, before) |
| Runs.OneActivePerSlot | apps/api/app/domain/reducer.py:146-226 | on runs that merge nothing a problem has at most one active fact per slot |
| Runs.RecoveryIsInvisible | apps/api/app/services/meeting_engine.py:51-60 | stopping anywhere, rebuilding and going on gives the state of the uninterrupted run |
| Runs.IdleEventsAreInvisible | apps/api/app/services/meeting_engine.py:65-69 | non-final events and repeats of accepted ones may be inserted anywhere without effect |
| Selection.Rank | apps/api/app/domain/priority.py:50-81 | the loops and the sort compute the ranking |
| Selection.Adjustment | apps/api/app/domain/priority.py:65-71 | the signal adjustment of a problem lies between -3 and 0 |
| Selection.SelectSuggestions | apps/api/app/domain/selector.py:29-68 | the loop computes the suggestions |
| Selection.SortIsSorted | apps/api/app/domain/priority.py:73-80 | with distinct ids the sort is a strictly ordered rearrangement |
| Selection.SelectionIsTopThree | apps/api/app/domain/selector.py:35-68 | the suggestions are the first min(3, open) gaps of the strict ranking, the first alone ASK NOW, all other open gaps rank later |
| Selection.SelectionIgnoresGapOrder | apps/api/app/domain/selector.py:37-41 | rearranging the gap table changes nothing |
| Selection.TemplateOrderKept | apps/api/app/domain/priority.py:64-80 | gaps of one problem keep their template order under any signals |
| Questions.PublishedTopThree | apps/api/app/services/meeting_engine.py:107-121 | in every reachable state the published suggestions are the top three of its own open gaps, when every question exists in every language |
| Urgency.UrgentAreAsked | apps/api/app/domain/priority.py:50-81 | every call publishes, in order of urgency, the open gaps that have a question in its language and fewer than three open gaps ahead; urgency is the effective priority from the strongest signal in the active facts, then the age of the problem, then template position, then id |
| Urgency.UrgentFirst | apps/api/app/domain/priority.py:50-81 | when a gap is asked, every more urgent open gap that has a question is asked before it |
| Sequences.TextLessMeaning | apps/api/app/domain/priority.py:73-80 | texts are compared by their first difference, a beginning first |
| Drafts.DraftAgreesWithGaps | apps/api/app/services/issue_drafts.py:41-112 | a required slot is missing exactly when its gap is open, ready exactly when all are answered, questions are the open gaps, and a ready draft asks nothing required |
| Drafts.QuestionsInTemplateOrder | apps/api/app/services/issue_drafts.py:105-105 | questions are listed by priority, none lost and none repeated |
| Drafts.HistoryIsInactive | apps/api/app/services/issue_drafts.py:85-94 | the history holds exactly the facts of the lineage that are no longer active |
| Drafts.MissingInOrder | apps/api/app/services/issue_drafts.py:54-58 | missing slots stand in the order in which the template requires them |
| Readers.GapNamesFirstActive | apps/api/app/domain/reducer.py:339-366 | in every reachable state a gap names the first active fact of its lineage and slot |
| Readers.HintResolvesIff | apps/api/app/domain/reducer.py:178-224 | a statement of a hint that supersedes the first active fact resolves the published gap exactly when that fact was the only active one |
| Readers.MergedReadersAgreeIff | apps/api/app/services/issue_drafts.py:41-50 | after any merge of any run draft and gap agree on a slot exactly when the first and last active facts of the two sides have one value, and with at most one on each side exactly when they do not differ |
| Readers.MergeKeepsOneActiveIff | apps/api/app/domain/reducer.py:378-440 | a merge leaves at most one active fact of a slot exactly when only one side holds any |
| Readers.CarefulRunsAgree | apps/api/app/services/issue_drafts.py:41-50 | on runs whose merges join sides that share no answered slot the draft always shows the fact that resolves the gap |
| Readers.CarefulThenMergeIff | apps/api/app/services/issue_drafts.py:41-50 | the first merge that shares a slot separates draft and gap exactly when the sides hold different values |
| Witnesses.MergedDraftShowsOtherFact | apps/api/app/services/issue_drafts.py:48-48 | a run of two events and one merge after which the gap names the first fact and the draft shows the second |
| Witnesses.SupersedingLeavesOlderValue | apps/api/app/domain/reducer.py:178-224 | a run after which the newest owner is active and the gap names an older one |
| Review.IdentityReviewCandidates | apps/api/app/api/live_contracts.py:118-155 | the loops with early return give the first eight offerable pairs |
| Review.CandidatesAreOffered | apps/api/app/api/live_contracts.py:132-154 | the uncapped list holds exactly the offerable pairs of the state |
| Review.OfferedIff | apps/api/app/api/live_contracts.py:118-155 | two unmerged problems of one category are offered exactly when no decision keeps them apart and they are not both anchored under different keys |
| Review.CappedEmpty | apps/api/app/api/live_contracts.py:153-155 | the capped list is empty exactly when nothing is offerable |
| Review.CandidatesBound | apps/api/app/api/live_contracts.py:132-134 | n unmerged problems make at most n(n-1)/2 offerable pairs |
| Review.ReviewProgress | apps/api/app/domain/reducer.py:386-444 | every offered pair is accepted, and deciding it leaves strictly fewer offerable pairs |
| Review.ReviewTerminates | apps/api/app/api/live_contracts.py:118-155 | with no new events a review session has at most n(n-1)/2 decisions, and one that cannot go on has reached the empty list |
| RateLimiter.Limiter.RequireIdentity | apps/api/app/gateway/main.py:230-246 | rejected as rate limited exactly when 120 requests of the principal were accepted in the preceding minute |
| RateLimiter.AdmittedIff | apps/api/app/gateway/main.py:236-245 | a request is admitted exactly when the log of accepted requests with it still respects the limit |
| RateLimiter.AtMostLimitPerMinute | apps/api/app/gateway/main.py:237-243 | a log that respects the limit has at most 120 entries in any half-open minute |
| RateLimiter.PruningLosesNothing | apps/api/app/gateway/main.py:236-245 | over every run the pruned window decides as the whole log would |
| RateLimiter.RunsStayLimited | apps/api/app/gateway/main.py:236-246 | over every run with a non-decreasing clock each principal has at most 120 accepted requests in any half-open minute |
| Glossary.FindFrom | apps/api/app/services/governance.py:223-223 | the first occurrence of the needle, or none at all |
| Glossary.GlossaryEntities | apps/api/app/services/governance.py:211-239 | the loops compute the selected ids and names without repeats |
| Glossary.GreedyMaximal | apps/api/app/services/governance.py:229-234 | each rejected match overlaps a chosen one that is longer, or as long and further left, or there with no greater id |
| Glossary.SelectionIsGreedyMaximal | apps/api/app/services/governance.py:211-239 | selected matches are first occurrences of names or aliases of enabled entries, disjoint and in text order; every such occurrence that is not selected overlaps a selected one that goes before it; and the total length fits the text |
| Reconciliation.Scan | apps/api/app/services/fulfillment_reconciliation.py:115-158 | the nested loops tally exactly the scanned items |
| Reconciliation.AggregatesAccountForRecords | apps/api/app/services/fulfillment_reconciliation.py:139-158 | every aggregate is the sum, number and latest stamp of the accepted records of its key |
| Reconciliation.InspectedAreAccounted | apps/api/app/services/fulfillment_reconciliation.py:131-145 | inspected records are accepted or invalid, and each invalid warning counts its connector and flow exactly |
| Reconciliation.QuantityIsConserved | apps/api/app/services/fulfillment_reconciliation.py:146-149 | the quantities of a table add up to the accepted quantities |
| Reconciliation.Reconcile | apps/api/app/services/fulfillment_reconciliation.py:160-336 | the findings are the first 1000 of the uncapped sequence |
| Reconciliation.CleanReportIff | apps/api/app/services/fulfillment_reconciliation.py:160-336 | a consistent shared flow has no missing or mismatch finding in the returned report, and below the finding limit the absence of such findings means it is consistent |
| Reconciliation.CleanReportConserves | apps/api/app/services/fulfillment_reconciliation.py:160-336 | with zero tolerances a returned report below the limit without such findings for a flow means equal quantities per key and equal scanned totals |
| Findings.FindingsExplained | apps/api/app/services/fulfillment_reconciliation.py:160-336 | every returned finding reports what is the case: a key on one side only and on which, a repeated key, or quantities apart by more than both tolerances with the severity of their percentage; below the limit all that is the case is reported |
| Findings.FindingsInOrder | apps/api/app/services/fulfillment_reconciliation.py:160-336 | findings stand by transition, flow and key in sorted order, a repeated key before its quantities, none twice; the limit drops the last ones |
| Findings.RowsAre | apps/api/app/services/fulfillment_reconciliation.py:115-142 | exactly the records of wanted mappings are read, from the first entity of the mapped name up to case, each part from its mapped field |
| Findings.PostingsAre | apps/api/app/services/fulfillment_reconciliation.py:143-149 | a record counts exactly when it names an article and a quantity that is not negative |
| Findings.AggregateIsLatest | apps/api/app/services/fulfillment_reconciliation.py:150-158 | the aggregate of a key has the latest stamp among its accepted records, none if they have none |
| Findings.MissingMappingsCounted | apps/api/app/services/fulfillment_reconciliation.py:115-117 | the warning about missing mappings counts the sources of its connector that have none |
| Calendar.InBucket | apps/api/app/services/erp_analytics.py:78-96 | every instant lies in its day, week or month bucket, and bucket starts are fixed points |
| Calendar.BucketsDisjoint | apps/api/app/services/erp_analytics.py:89-96 | a bucket ends before any later bucket starts |
| Calendar.StartsAligned | apps/api/app/services/erp_analytics.py:78-86 | days start at midnight, weeks on a Monday and months on their first day |
| Calendar.YearsInDays | apps/api/app/services/erp_analytics.py:86-96 | the month lengths agree with the Gregorian leap-year rule |
| Calendar.MonthsFollowFormula | apps/api/app/services/erp_analytics.py:86-96 | the first day of every month has the number that the closed Gregorian formula gives it |
| ErpAnalytics.Scan | apps/api/app/services/erp_analytics.py:201-257 | the nested loops enter every scanned record |
| ErpAnalytics.AnalyzeErpRecords | apps/api/app/services/erp_analytics.py:182-316 | the loops over series and periods compute the report |
| ErpRows.RowsAre | apps/api/app/services/erp_analytics.py:201-218 | exactly the records of wanted mappings are scanned, from the first entity of the mapped name up to case |
| ErpRows.FirstFault | apps/api/app/services/erp_analytics.py:218-250 | a record is warned about for the first fault in the order of the checks, and one without fault is sampled with what its fields say |
| ErpValues.PointsAreMeant | apps/api/app/services/erp_analytics.py:104-129 | series have different keys, and each point has the value its aggregation means: a least or greatest sample, the latest and on ties greatest, the sum, or a value whose product with the count or total weight is the sum |
| ErpValues.EveryGroupHasItsPoint | apps/api/app/services/erp_analytics.py:264-289 | a period has a point exactly when it has samples, unless the average needs weights and none is positive |
| ErpValues.SeriesStandInOrder | apps/api/app/services/erp_analytics.py:259-300 | the series stand in the sorted order of their keys |
| ErpLaws.GroupsAccount | apps/api/app/services/erp_analytics.py:251-254 | each group holds exactly the samples of its series and period, in scan order |
| ErpLaws.WarningsAccount | apps/api/app/services/erp_analytics.py:219-246 | each record warning counts exactly the records rejected for it, and every record is warned about or sampled |
| ErpLaws.RecordsConserved | apps/api/app/services/erp_analytics.py:219-291 | before the series cap every scanned record is counted exactly once |
| ErpLaws.ReportWarnings | apps/api/app/services/erp_analytics.py:276-281 | weight warnings add exactly the samples of weightless periods |
| ErpLaws.SeriesInOrder | apps/api/app/services/erp_analytics.py:264-289 | the points of a series are ascending and disjoint, each holds its samples in its bucket and in the window |
| ErpLaws.DayPointsBound | apps/api/app/services/erp_analytics.py:264-289 | a day-bucketed series has at most as many points as the window touches days |
| ErpLimits.EveryDayHasItsPoint | apps/api/app/services/erp_analytics.py:201-289 | for every window and every parser that reads its instants, a source with a record a day gives a point for each day touched |
| ErpLimits.PointLimitIff | apps/api/app/domain/erp_analytics.py:48-94 | for windows of at most 731 days and every parser that reads their instants no series has more than 732 points, and none can have more than 731 exactly when the window ends by the 731st midnight after its first day |
| ErpLimits.NoonWindowOverflows | apps/api/app/domain/erp_analytics.py:48-94 | for every such parser a window of 731 days from noon and a record a day give a series of 732 points |
| ErpLaws.ValueInHull | apps/api/app/services/erp_analytics.py:104-129 | except for sums, the value of a point lies between its least and greatest sample |

## Left out

- Runs.LinksResolveAlways: states link integrity for runs in which accepted events have increasing numbers, no event
  proposes two facts for one slot of one category, and no hint is confirmed; outside these runs ids can repeat or a
  successor can have a smaller number. FactIds.IdsUniqueIff says for all runs when ids are unique.
- FactLinks.MeetKeepsLinks: takes statements newer than the facts of their slot and lineage, because a link leads to a
  larger number only then.
- HearLaws.HearKeepsLinks: takes rules that propose at most one fact for a slot of a category in one event, and events
  in increasing order, for the same reason.
- FactIds.HintOwnIdsIff: takes hints that name each slot once; FactIds.HintKeepsIdsIff is about all hints.
- FactIds.EventOwnIdsIff: takes events and contexts that name each slot once; FactIds.EventKeepsIdsIff is about all.
- FactIds.NumberedIdsIff: takes events with numbers of their own that name each slot once; FactIds.IdsUniqueIff is
  about all runs.
- Readers.HintResolvesIff: takes a statement whose slot no other statement of the hint names.
- Runs.RecoveryIsInvisible: states recovery for engines that allow promotion, because a rebuilt engine always does.
- Detections.AnchoredKeysStayApart: takes runs that merge nothing, because a merge joins the keys of two problems.
- Urgency.UrgentAreAsked: takes gap ids whose wire texts differ whenever the ids do.
- ErpValues.PointsAreMeant: speaks of the series before the cap of 200.
- RateLimiter.Limiter.RequireIdentity: takes clock readings that never go back, which a wall clock does not promise.
- Ids are modelled as their parts. The program joins the parts with a separator and hashes decisions, so the model
  assumes that no part contains the separator and that digests do not collide; the meeting id is constant and dropped.
- The bodies of the language rules, `identify_problem`, text normalization, number and time parsing, and case folding
  are parameters; currency and reference clean-up include the upper-casing the program applies. `ErpLimits` takes
  parsers that read every instant of the window and some number.
- Python sorts of keys, flow ids, series and periods are parameters that list each element once (periods ascending);
  sorts whose order matters (gaps, matches, drafts) are modelled in full.
- Replacing a list element by object identity is modelled by position; problems and facts are values.
- Titles, subjects, question wording, reasons, explanations, recommended checks, run ids and digests, and the
  ambiguous-routing counter.
- Signal matching on the text of active facts is a parameter of that text; the order of facts within the text is kept.
- `Decimal` is exact real arithmetic before rounding for output.
- Reconciliation: the warnings for flows that are not shared, for unavailable connectors and for the finding limit, and
  the status of the run.
- ERP analytics: the cap of 200 series, trend summaries, discrepancies between connectors, and warnings about missing
  metrics or connectors.
- The bounded evidence projection of the live view, governance candidates and records, the document, assurance and
  consistency services, connectors, leases, web hooks, storage, transport and user interfaces.

# Verified model of the Amber voice server

Amber is a voice assistant behind one WebSocket per client. This project models the parts of it
where state, interleaving or streaming make mistakes easy, and proves what those parts promise.
Code that updates objects in place is modelled by classes and methods, each proved against a
function of the old state; the promises are then proved of those functions, or as invariants
over all runs of a state machine whose steps are those functions.

| files | what they model |
|---|---|
| `Wrappers.dfy`, `Collections.dfy`, `Text.dfy` | options, sets and sequences; Python's `strip`, `join` and lower-casing on strings |
| `SentenceSplitter.dfy`, `SplitterLaws.dfy` | the incremental sentence scanner and its batch form |
| `Pipeline.dfy` | `_speak_stream` over `_capture`: frames on the socket, interrupted anywhere |
| `Conversation.dfy` | the trimmed history, and `_think_and_speak` around it |
| `RateLimiter.dfy`, `Sessions.dfy` | the sliding-window limiter and the session registry |
| `Ranking.dfy` | fact scores over the reals, ranking and the budget cut |
| `FactStore.dfy`, `FactLifecycle.dfy` | the fact table, its supersede links and its sweeps |
| `Consolidation.dfy`, `PlanOutcome.dfy`, `PlanWords.dfy` | model-driven maintenance, exactly which facts a plan retires, and exactly what the others say afterwards |
| `Keywords.dfy`, `ModelSync.dfy`, `SyncRaces.dfy`, `Fleet.dfy` | the keyword table with its cache, one sync pass, edits made inside one, and many installs syncing at once |
| `Outbox.dfy`, `Reminders.dfy` | the push outbox and deliverer, and firing and acknowledging reminders |
| `DeliveryRuns.dfy`, `Handover.dfy` | every run of the two with crashes, and how long a push can wait in any of them |
| `Confirm.dfy`, `Approvals.dfy` | the approval channel and gate, and every interleaving of them |
| `Turns.dfy`, `TurnRuns.dfy`, `SpokenTurns.dfy` | one connection: receive loop, turn tasks, barge-in, deliverer and the wire they share; what can always be brought to an end; and what a spoken reply writes |

Foreign calls are parameters: what a request, a send or a model returns, which ids and times are
drawn, and when an `await` is interrupted; and for keywords, pushes and reminders also whether a
database write succeeds. Theorems hold for all of them, with the exceptions named under "Left out".
Times are instants on the real line, scores are real numbers, and the logarithm and the half-life
in the score are functions bounded in [0, 1].

## Where the code does not do what it is said to do

Each of these is stated by a lemma, as an exact condition where there is one.

- `retry_after` is documented as 0 when there is room now (`app/ratelimit.py:48-53`); that holds
  except exactly when the limiter is partly filled and its oldest event is still in the window (`RetryZeroIffNoSpareRoom`, `RetryWithRoomToSpare`).
- The buffer is documented to open with a user turn (`app/session.py:44-47`). It always does exactly when every reply
  had a question among the `cap` messages before it, and exactly then it is the longest such suffix of the log
  (`OpensIff`, `UncappedOpensIff`, `HistoryIsWindowIff`). So a log that opens with the user breaks it exactly when more than `cap`
  replies stand in a row (`PileUpIff`); `cap` after one question are harmless and one more is not (`OneReplyTooMany`).
- A match is not always ranked above what did not match: it is safe exactly when its place and tier alone reach the
  most an unmatched fact can score, that is always for durable facts, and with at most nine tenths of the matches ahead of
  it for short-term ones and 55 in 100 for session ones (`OutscoresIff`, `ClearsWhen`, `BelowTheBarMayTrail`).
- `lineage` shows the fact it was asked about exactly when fewer than `limit` older versions precede it, and
  the whole chain exactly when it has at most `limit` facts (`LineageShowsAskedIff`, `LineageIsWholeIff`);
  after enough corrections the newest version is missing from its own history (`LateVersionIsMissing`).
- Decay and promotion commute on a table exactly when no fact sits on the edge of both with a promotion
  threshold of one (`SweepsCommuteIff`).
- A reset sticks through the next pass exactly when the store lacks the keyword or the row was a shared one: resetting a
  pending row of a keyword the store has, or any such row twice, is undone by the pull (`ResetSticksIff`, `ResetTwiceIsUndone`).
- An edit made inside a sync pass can be undone by that pass: exactly when the row as it was before, with another model or as
  a removal, is waiting to be sent or recorded, or when the pass has read the local table and its own write of another
  model, or its removal of the row, is still to come (`EditSurvivesIff`, `LostWhilePushingIff`; for resets `ResetSurvivesIff`).
  Every pending row can lose an edit or a reset in this way (`EditDuringPushIsLost`, `ResetDuringPushIsUndone`), and so can
  every row about to be overwritten (`EditDuringPullIsLost`).
- A sync pass is documented never to raise (`app/model_sync.py:94`). With all requests answered it raises exactly when the
  local table cannot be read or one of the writes it still has to make fails (`SyncOnce`). The cache is then stale exactly if it was loaded
  and something had been adopted, or a row dropped that meant something (`TornShowsIff`); the next full pass
  repairs both (`TornRetryIsFullPass`).
- A consolidation plan retires an active fact exactly when a merge names it or a correction of it is reached before the cap
  is used up and before an entry that raises (`FactIsRetiredIff`), so with room for the whole plan a keeper survives exactly when
  no merge names it and no correction is of it (`KeeperSurvivesIff`), and two opposite merges forget both facts (`MutualMergesLoseBoth`).
- An explicit fact is protected from being dropped for a guessed one (`ExplicitOutlivesGuesses`), not from being
  superseded (`AnyFactMayBeSuperseded`).
- An interrupted reply can be remembered longer than it was heard (`SavedMayExceedHeard`); the two agree exactly when
  no sentence was waiting to be spoken and the text still held was blank (`SavedIsHeardIff`).
- A due reminder whose text is blank is never announced, and one whose push draws an id already in the outbox
  is marked fired without an announcement (`FireOneAnnounces`, `PassAnnounces`); runs count such filings
  (`FiredIsOnRecord`, `OncePerMark`).
- With another sink ahead of it, a push can land between an `audio_chunk` and its bytes, because the idle check
  is not repeated per sink (`OtherSinksDisturb`); with one sink it cannot (`TurnsAreWhole`).
- An `audio_chunk` is promised to be immediately followed by its bytes (`README.md:126`, `app/protocol.py:323`). It is exactly when
  neither a reply of the receive loop nor a push held back falls between the two (`FollowedAtOnceIff`); with one sink
  a reply still can (`RepliesDivide`).

## Model

| member | source | states |
|---|---|---|
| `Text.StripCutsBlanks` | app/sentence_splitter.py:51-58 | stripping removes blanks at the two ends and nothing else, and leaves none there |
| `Text.StripUnique` | app/sentence_splitter.py:51-58 | the stripped text is the only trimmed middle between two blank ends |
| `SentenceSplitting.SentenceSplitter.Feed` | app/sentence_splitter.py:44-49 | what is emitted and kept is exactly what draining the buffer with the chunk added gives, and no further cut can be made in what is kept; what a cut is, `SplitterLaws.CutMeans` and `SentenceEndsIff` say |
| `SentenceSplitting.SentenceSplitter.Flush` | app/sentence_splitter.py:51-58 | the remainder comes out trimmed, unless blank, and the buffer is empty |
| `SentenceSplitting.SentenceSplitter.DrainBuffer` | app/sentence_splitter.py:60-68 | the drain loop cuts off every complete sentence and stops only when no boundary is left |
| `SentenceSplitting.SentenceSplitter.FindBoundary` | app/sentence_splitter.py:70-99 | the scan finds the cut called for by the first character that calls for one |
| `SentenceSplitting.SentenceSplitter.IsFalseSplit` | app/sentence_splitter.py:101-117 | a terminator is passed over exactly when the unbroken word ending at it is a known abbreviation |
| `SentenceSplitting.SentenceSplitter.TrailingWord` | app/sentence_splitter.py:119-123 | the word is the longest run without whitespace that ends there |
| `SentenceSplitting.StreamSentences` | app/sentence_splitter.py:134-139 | feeding the chunks in turn and flushing yields the streamed form |
| `SplitterLaws.CutMeans` | app/sentence_splitter.py:25-117 | from the characters: a cut comes just after a newline, or at the whitespace behind `.`, `!` or `?` with only closing quotes and brackets between, unless the word there is one of the 24 abbreviations in any case |
| `SplitterLaws.SentenceEndsIff` | app/sentence_splitter.py:60-117 | a sentence with whitespace behind it comes out first, whole, whatever follows, exactly if its last word is no abbreviation |
| `SplitterLaws.StopsAndTitles` | app/sentence_splitter.py:70-117 | a full stop ends a sentence, and the one of `Dr.` does not |
| `SplitterLaws.CutAtStable` | app/sentence_splitter.py:70-99 | a cut decided in a buffer, or ruled out short of its end, is not changed by text arriving later |
| `SplitterLaws.BoundaryStable` | app/sentence_splitter.py:70-99 | a boundary found in a buffer is still the first boundary after the buffer grows |
| `SplitterLaws.DrainSplits` | app/sentence_splitter.py:60-68 | draining a longer buffer is draining the shorter one and then its remainder with the rest |
| `SplitterLaws.DrainSettles` | app/sentence_splitter.py:44-68 | after every drain the remainder holds no boundary |
| `SplitterLaws.ChunkInvariance` | app/sentence_splitter.py:126-139 | for every text and every way of cutting it into chunks, streaming yields what splitting the whole text yields |
| `SplitterLaws.EmittedIsPrefix` | app/sentence_splitter.py:44-68 | what has been emitted is a prefix of the final sentences, whatever arrives later |
| `SplitterLaws.NothingIsLost` | app/sentence_splitter.py:51-123 | the sentences joined, without whitespace, are the text without whitespace |
| `SplitterLaws.SentencesAreSolid` | app/sentence_splitter.py:51-123 | every sentence is non-empty, trimmed, on one line and holds no cut |
| `SplitterLaws.SplitIsNormalForm` | app/sentence_splitter.py:126-131 | splitting the sentences of any text, one to a line, gives the same sentences |
| `Pipeline.Emit` | app/pipeline.py:443-458 | one sentence: its `audio_chunk` with the next index, then its bytes; interrupted, at most the announcement is out |
| `Pipeline.EmitAll` | app/pipeline.py:460-465 | sentences go out in order, indices run on, and an interrupt leaves an announced prefix |
| `Pipeline.SpeakToken` | app/pipeline.py:395-465 | one token, cut off at any await: it is captured as soon as it has arrived, and if the call ends it is spoken as far as it is cut |
| `Pipeline.SpeakStream` | app/pipeline.py:395-465 | for every token stream and interruption: audio directly follows its announcement, what was heard and announced are openings of the split reply, what is captured splits into the sentences heard, those waiting and those of the text held, the deltas concatenate to the captured text, and an uninterrupted reply is spoken whole |
| `Pipeline.HeardIsSaved` | app/pipeline.py:312-327 | up to whitespace, what was heard is an opening of the reply that is saved, and all of it exactly when every sentence of the reply was heard |
| `Pipeline.SavedIsHeardIff` | app/pipeline.py:312-327 | wherever a reply stops, what is saved is what was heard exactly if no sentence was waiting and the text still held is blank |
| `Pipeline.SavedMayExceedHeard` | app/pipeline.py:312-327 | an interrupted run of `SpeakStream`: nothing is heard, the first token is saved, and the two differ exactly if it is not blank |
| `SpokenTurns.SpeakingIsATurn` | app/pipeline.py:443-465 | whatever a spoken reply has sent, wherever it stopped, are the steps of one turn task on the wire, in the phase the reply stands in |
| `Conversations.Conversation.TrimInPlace` | app/session.py:60-68 | trimming in place leaves the newest messages the cap allows, from the first user message on |
| `Conversations.Conversation.Append` | app/session.py:52-58 | the log grows by the message and the history stays the incrementally trimmed log |
| `Conversations.WindowIsLongest` | app/session.py:60-68 | the specification: the longest suffix of the log that fits the cap and opens with the user |
| `Conversations.TrimStep` | app/session.py:52-68 | one append keeps the history equal to that suffix exactly if the message is the user's or the history was not empty |
| `Conversations.HistoryIsWindowIff` | app/session.py:52-68 | over a whole log the history equals the suffix at every point exactly when no reply met an empty history |
| `Conversations.OpensIff` | app/session.py:39-68 | with a cap, the history opens with the user at every point exactly if every reply had a question among the `cap` messages before it, and exactly then it is the specified suffix at every point |
| `Conversations.UncappedOpensIff` | app/session.py:39-68 | without one it does exactly if the log does |
| `Conversations.TurnShapedHistory` | app/session.py:52-68 | for caps of at least two and replies that each follow a question, the trimmed history is the specified suffix |
| `Conversations.ThreeRepliesBreakTheHistory` | app/session.py:60-68 | with a cap of two, the third reply in a row is what the history opens with |
| `Conversations.PileUpIff` | app/session.py:39-68 | with a cap, the history always opens with the user exactly if the log does and no more than `cap` replies ever stand in a row |
| `Conversations.OneReplyTooMany` | app/session.py:60-68 | for every cap: that many replies to a question leave the history opening with it, one more has it open with a reply |
| `Conversations.ThinkAndSpeak` | app/pipeline.py:210-338 | a turn records the question and the reply as far as it got, whatever the interrupt; what was heard opens it, and is all of it exactly if no sentence was waiting and the text held was blank |
| `RateLimiting.RateLimiter.PurgeOld` | app/ratelimit.py:32-35 | events at or before the cutoff leave from the front |
| `RateLimiting.RateLimiter.Admit` | app/ratelimit.py:37-46 | a call is admitted and recorded, or refused, as the purged window says |
| `RateLimiting.RateLimiter.WaitFor` | app/ratelimit.py:48-53 | the wait is the time until the oldest held event leaves |
| `RateLimiting.RunTracks` | app/ratelimit.py:32-46 | over every run of calls, what is held is the tail of the admissions, the rest has left the window, and admissions `max` apart are a window apart |
| `RateLimiting.SlidingWindow` | app/ratelimit.py:37-46 | no window of the given length holds more than `max_events` admissions |
| `RateLimiting.RefusedOnlyWhenFull` | app/ratelimit.py:37-46 | a refusal means exactly `max_events` admissions lie within the last window |
| `RateLimiting.AdmittedIff` | app/ratelimit.py:37-46 | a call is admitted exactly when the limit is off or fewer than `max_events` events survive the purge |
| `RateLimiting.RetryIsExact` | app/ratelimit.py:48-53 | waiting the time given is enough, and when the limiter is full waiting any less is not |
| `RateLimiting.RetryZeroIffNoSpareRoom` | app/ratelimit.py:48-53 | "0 if there is room" holds except exactly when the limiter is partly filled and its oldest event is still in the window |
| `RateLimiting.RetryWithRoomToSpare` | app/ratelimit.py:48-53 | a limiter with room still names a wait |
| `Sessions.SessionManager.EvictExpired` | app/session.py:164-173 | exactly the sessions idle for longer than the limit go, and none without a limit |
| `Sessions.SessionManager.EnforceCapacity` | app/session.py:175-180 | the eviction loop gives up the longest idle, first created first, until the cap holds |
| `Sessions.SessionManager.ResumeOrCreate` | app/session.py:126-151 | a presented id is resumed exactly while it is registered and live; otherwise a new session takes its place under the drawn id, replacing one that has it, and the cap is enforced |
| `Sessions.ResumableIff` | app/session.py:126-151 | what is found is exactly what is registered and not expired |
| `Sessions.CappedSize` | app/session.py:175-180 | the registry holds the smaller of its size and a positive cap |
| `Sessions.LongestIdleGoFirst` | app/session.py:175-180 | nobody is given up while someone idle for longer is kept |
| `Sessions.NewcomerStays` | app/session.py:142-151 | with a clock that does not run backwards the session just created is never evicted to make room for itself |
| `Sessions.NewcomerIsKept` | app/session.py:142-151 | so a session registered in a registry within its cap is there afterwards, even under an id drawn twice |
| `Ranking.MatchOutscores` | app/memory/context.py:41-56 | in particular the top match, and every matched durable fact, strictly outscores every unmatched fact |
| `Ranking.LaterMatchMayLose` | app/memory/context.py:41-56 | at every place and tier below the bar, some match loses to some unmatched fact, whatever the two say |
| `Ranking.ClearMatchOutscores` | app/memory/context.py:41-56 | a match whose place and tier alone reach the most an unmatched fact can score strictly outscores every unmatched fact, for all confidences, uses and ages |
| `Ranking.OutscoresIff` | app/memory/context.py:41-56 | a match of a tier at a place outscores every unmatched fact exactly if it clears that bar, whatever the two say |
| `Ranking.ClearsWhen` | app/memory/context.py:94-108 | the bar is cleared by every durable match, by a short-term one with at most nine tenths of the matches ahead of it, and by a session one with at most 55 in 100 |
| `Ranking.EachSignalCounts` | app/memory/context.py:41-56 | what relevance, tier and confidence are worth, all else being equal, and that confidence counts only within [0, 1] |
| `Ranking.UseAndAgeCount` | app/memory/context.py:80-108 | what use and age are worth, that use saturates, and that a date in the future counts as today |
| `Ranking.RankFacts` | app/memory/context.py:111-184 | the facts chosen are the longest prefix of the ranking within the count cap and the character budget, a lone fact excepted |
| `Ranking.Cut` | app/memory/context.py:172-184 | the accumulating loop finds that longest prefix |
| `Ranking.LongestFitMeans` | app/memory/context.py:172-184 | in characters: it stops short only at the count, or where the next fact and its separator would overrun the budget, and never before the first |
| `Ranking.RankingIsComplete` | app/memory/context.py:142-170 | the ranking lists each candidate once and contains every match, with its relevance, and every standing fact |
| `Ranking.RankingIsOrdered` | app/memory/context.py:166-170 | best score first, and of two that score the same the one with the larger id |
| `Ranking.RankingIsRead` | app/memory/context.py:142-164 | it holds nothing but matches and standing facts, or, only where there are neither, the recent facts, and then all of them |
| `Ranking.FirstIsAMatch` | app/memory/context.py:166-170 | if anything matched, the first fact is a match |
| `Ranking.DurableMatchesLead` | app/memory/context.py:166-170 | every matched durable fact precedes every unmatched one |
| `Ranking.ClearMatchesLead` | app/memory/context.py:142-170 | and so does every match that clears the bar |
| `Ranking.BelowTheBarMayTrail` | app/memory/context.py:142-170 | for every place and tier below it, and whatever the facts say, there is a search in which a standing durable fact comes before the match |
| `FactStore.MemoryStore.AddFact` | app/memory/store.py:583-634 | blank text stores nothing; a fact said before is reinforced and never weakened; anything else becomes a new row under a fresh id |
| `FactStore.SaysIff` | app/memory/store.py:605-612 | an active fact says the same if the texts differ at most in the case of ASCII letters |
| `FactStore.ToldAgain` | app/memory/store.py:614-629 | told again, one row gains a use, 0.05 on the higher confidence up to 1, and the more lasting of the two tiers, and nothing else changes anywhere |
| `FactStore.ToldFirst` | app/memory/store.py:600-634 | otherwise, and also where the same was only said by a forgotten or corrected fact, it is a new unused row |
| `FactStore.MemoryStore.SupersedeFact` | app/memory/store.py:797-845 | the correction is a new active row with a larger id and the old row points at it; blank text or an unknown id changes nothing |
| `FactStore.CorrectedIs` | app/memory/store.py:797-845 | the correction carries the new words and all it is given, with the old category if it has none; the old row changes only its standing; no other row changes |
| `FactStore.MemoryStore.ForgetFact` | app/memory/store.py:847-865 | an active fact is marked forgotten and returned as it was; anything else changes nothing |
| `FactStore.MemoryStore.TouchFacts` | app/memory/store.py:745-761 | each named row, however often named, gains one use |
| `FactStore.MemoryStore.PromoteFacts` | app/memory/store.py:878-893 | exactly the active short-term rows with enough uses become durable, and the result counts them |
| `FactStore.MemoryStore.DecayFacts` | app/memory/store.py:895-926 | exactly the active session facts, and active short-term facts used less than twice, that have been idle past the lifetime of their tier are forgotten; the result counts them |
| `FactStore.MemoryStore.Lineage` | app/memory/store.py:1207-1245 | the walk back and forth returns an excerpt of the one path through the fact, oldest first, at most `limit` long |
| `FactStore.LinkedStaysLinear` | app/memory/store.py:797-845 | superseding keeps the links injective and pointing at larger ids |
| `FactStore.PathThrough` | app/memory/store.py:1207-1245 | every fact lies on a complete path from an oldest to a newest version |
| `FactStore.PathIsAscending` | app/memory/store.py:1207-1245 | ids rise strictly along a path, so there are no cycles |
| `FactStore.PathIsUnique` | app/memory/store.py:1207-1245 | two complete paths that share a fact are the same path, with the fact at the same place |
| `FactStore.LineageIsWholeIff` | app/memory/store.py:1207-1245 | the excerpt is the whole path exactly when the path has at most `limit` facts |
| `FactStore.LineageShowsAskedIff` | app/memory/store.py:1207-1245 | the excerpt contains the fact asked about exactly when its position is below the limit |
| `FactLifecycle.LateVersionIsMissing` | app/memory/store.py:1207-1245 | for every limit there is a run of corrections after which the newest version is not in its own lineage |
| `FactLifecycle.StepKeeps` | app/memory/store.py:583-926 | every operation keeps links linear and confidences in [0, 1], and lowers no tier, use count or confidence |
| `FactLifecycle.ReachableIsSound` | app/memory/store.py:583-926 | so does every run from the empty table |
| `FactLifecycle.NothingFalls` | app/memory/store.py:583-926 | between any two points of a run no row disappears and no tier rank, use count or confidence has fallen |
| `FactLifecycle.DurableLeavesOnlyByChoice` | app/memory/store.py:895-926 | an active durable fact stops being active only by an explicit forget or supersede, never by decay |
| `FactLifecycle.SweepsCommuteIff` | app/maintenance.py:318-333 | decay and promotion commute exactly when no fact is due for both at a threshold of one |
| `FactLifecycle.SweepsAreIdempotent` | app/maintenance.py:318-333 | repeating a sweep at the same instant changes nothing |
| `Consolidation.ApplyMerges` | app/maintenance.py:171-195 | the merge loops rewrite, drop and count exactly as the plan, the batch and the cap allow, and end where an entry raises |
| `Consolidation.ApplyMerge` | app/maintenance.py:171-195 | one merge: entries that are no ids are skipped, one that cannot be looked up ends the pass with what was done so far |
| `Consolidation.ApplyCorrections` | app/maintenance.py:197-216 | the supersede loop does likewise, skipping unknown ids and blank texts |
| `Consolidation.Consolidate` | app/maintenance.py:146-222 | a pass does what the plan allows, up to an entry that raises, and nothing for a batch below two or an unusable plan |
| `Consolidation.EveryPlanIsBounded` | app/maintenance.py:166-216 | whatever the plan: the counters cover every row that changed status and stay within the cap, no row outside the batch changes, only condemned rows are forgotten, and the active count falls by at most the merges |
| `Consolidation.ExplicitOutlivesGuesses` | app/maintenance.py:185-194 | an explicit fact that no merge would drop for another explicit one is not forgotten by any plan |
| `PlanOutcome.MergesForgetIff` | app/maintenance.py:171-195 | the merges forget an active fact exactly if one names it before any that raises, while fewer facts than the cap leaves room for have been named before it |
| `PlanOutcome.CorrectionsSupersedeIff` | app/maintenance.py:197-216 | the corrections supersede a fact exactly if one of it is reached while there is room, and otherwise leave its status alone |
| `PlanOutcome.FactIsRetiredIff` | app/maintenance.py:166-216 | over the whole plan, with its cap and its unreadable entries, an active fact stops being active exactly if one or the other happens |
| `PlanOutcome.KeeperSurvivesIff` | app/maintenance.py:171-195 | with room for the whole plan and nothing in it that raises, a fact, keeper or not, stays active exactly if no merge names it and no correction is of it |
| `PlanOutcome.MutualMergesLoseBoth` | app/maintenance.py:171-195 | two merges of any plan that name each other's keeper forget both facts, if there is room for all of it |
| `PlanOutcome.AnyFactMayBeSuperseded` | app/maintenance.py:197-216 | one correction supersedes any active fact of the batch, whatever its source, and what replaces it has the correction's words, its category, and the tier and confidence the batch gave |
| `PlanWords.KeeperSays` | app/maintenance.py:171-181 | after any plan a keeper says exactly what the last merge reached that had new words for it gave: the merged text stripped, or the batch's stripped where the merge has none |
| `PlanWords.OthersKeepTheirWords` | app/maintenance.py:171-216 | and every other fact, dropped and corrected ones included, says what it said |
| `PlanWords.MergedTextIsKept` | app/maintenance.py:171-195 | so two facts told as one leave the keeper with the merged text and the other forgotten |
| `Keywords.NormalKeywordIsValid` | app/models.py:137-143 | a valid name is still valid once stripped and lower-cased |
| `Keywords.ValidKeywordIff` | app/models.py:129-138 | a keyword is a letter and up to 31 letters, digits, `_` and `-`, once stripped and lowered |
| `Keywords.ValidModelIff` | app/models.py:134-142 | a model id is a vendor, a slash and 1 to 120 more characters, with no whitespace anywhere and no slash in the vendor |
| `Keywords.KeywordStore.SetModelKeyword` | app/memory/store.py:1568-1594 | the row is written with its description and its shared flag |
| `Keywords.KeywordStore.ClearModelKeyword` | app/memory/store.py:1596-1625 | a shared row becomes a pending tombstone; a pending row or a tombstone is deleted |
| `Keywords.LoadedIsEffective` | app/models.py:162-185 | a freshly loaded cache shows exactly the overrides the table means |
| `Keywords.Catalogue.ResolveKeyword` | app/models.py:258-294 | resolving through the cache equals resolving directly from the table, and a keyword with an override means exactly that |
| `Keywords.OverrideWins` | app/models.py:230-269 | a keyword pointed at a model means it, built in or not, whatever the tier and the library's table |
| `Keywords.DefaultStands` | app/models.py:230-269 | a built-in keyword without one means its default |
| `Keywords.DefaultsAre` | app/models.py:54-124 | which are the ten in the source |
| `Keywords.ModelsResolveToThemselves` | app/models.py:258-264 | a name with a slash comes back stripped and otherwise unchanged |
| `Keywords.BlankMeansTier` | app/models.py:258-261 | a blank name means the tier |
| `Keywords.UnknownFallsBack` | app/models.py:271-294 | any other name is looked up in the library's table, then means what the tier means, and past that `balanced` |
| `Keywords.Catalogue.SetKeyword` | app/models.py:187-202 | a valid override changes that keyword's meaning and nothing else, a failed write changes nothing and raises, and cache and table still agree |
| `Keywords.Catalogue.ResetKeyword` | app/models.py:204-215 | a reset takes the keyword out of the meaning, a failed write changes nothing and raises, and cache and table still agree |
| `Keywords.Catalogue.ApplyMap` | app/models.py:320-344 | the patches are applied in order, exactly the usable ones whose write succeeds take effect and are reported, and cache and table still agree |
| `Keywords.PatchMeans` | app/models.py:297-344 | one patch changes the meaning of one keyword as asked, or nothing when its key or model is not valid |
| `Keywords.ChangesAre` | app/models.py:331-344 | what is reported as changed is exactly the keywords that are valid, reset or pointed at a valid model, and written |
| `ModelSync.Push` | app/model_sync.py:112-138 | the push loop leaves everything pending pushed and settled and counts the entries and the removals, or stops with at most one push applied but not recorded here |
| `ModelSync.PullOne` | app/model_sync.py:142-162 | one shared entry is adopted exactly if it is usable, different, and not contested by a pending change; only the write of such a one can raise |
| `ModelSync.Pull` | app/model_sync.py:140-162 | the pull loop adopts exactly the entries to be adopted, in any order, and counts them; at a write that fails it ends with exactly those adopted so far |
| `ModelSync.Prune` | app/model_sync.py:164-168 | exactly the shared rows that have gone from the store are dropped, and counted; at a write that fails it ends with those dropped so far |
| `ModelSync.TakeOver` | app/model_sync.py:140-168 | pull and drops together raise exactly if the table cannot be read or one of the writes to be made fails, and otherwise end at the full pass |
| `ModelSync.SyncOnce` | app/model_sync.py:93-176 | a pass that goes through is the full pass with its exact counts; one that stops at a request is a stopped one and says so; one that raises has taken over part, and then the cache is stale exactly if it was loaded and something shows |
| `ModelSync.ReportCounts` | app/model_sync.py:99-170 | what each counter of the report counts, row by row |
| `ModelSync.TornShowsIff` | app/model_sync.py:140-170 | a pass cut short by a failed write has changed what keywords mean exactly if an entry was adopted or a row dropped that meant something |
| `ModelSync.LawfulShowsIff` | app/model_sync.py:140-168 | in a table written by the catalogue and by passes, that is if anything was adopted or dropped |
| `ModelSync.TornRetryIsFullPass` | app/model_sync.py:140-168 | a full pass after one ends where an uninterrupted one would have |
| `ModelSync.StoppedKeepsMeaning` | app/model_sync.py:110-138 | a pass that stopped at a request changes no effective mapping |
| `ModelSync.StoppedKeepsEdits` | app/model_sync.py:110-138 | an edit not acknowledged is still pending after it |
| `ModelSync.RetryIsFullPass` | app/model_sync.py:110-138 | a full pass after an abort ends where an uninterrupted one would have |
| `ModelSync.RetriesAreFullPass` | app/model_sync.py:110-138 | and so after any number of passes cut short by a request or by a local write |
| `ModelSync.RetriesKeepMeaning` | app/model_sync.py:110-138 | no number of passes that stopped at a request changes what a keyword means here |
| `ModelSync.PullAdopts` | app/model_sync.py:140-168 | with nothing pending, the local table means what the shared one says after the pull |
| `ModelSync.FullPassAgrees` | app/model_sync.py:111-170 | so local and shared meaning agree after a full pass |
| `ModelSync.ResetSticksIff` | app/memory/store.py:1596-1633 | a reset survives the next pass exactly if the store lacks the keyword or the row was a shared one |
| `ModelSync.ResetTwiceIsUndone` | app/memory/store.py:1613-1624 | one reset of a shared row sticks and a second before the pass undoes it |
| `SyncRaces.PassArrives` | app/model_sync.py:111-170 | however a pass's requests and writes, edits of other keywords and other installs are interleaved, a keyword nobody touches ends where it was heading at the start |
| `SyncRaces.PassLeavesShared` | app/model_sync.py:111-170 | and so does what it leaves of that keyword in the shared table |
| `SyncRaces.EditSurvivesIff` | app/model_sync.py:111-170 | one edit at any point of an answered pass survives it exactly if the pass is not pushing another model for that keyword, and has no write of another model or removal of it still to make |
| `SyncRaces.LostWhilePushingIff` | app/model_sync.py:112-138 | while pushing, an edit is undone exactly if the row it replaces is pending with another model |
| `SyncRaces.ResetSurvivesIff` | app/model_sync.py:111-170 | one reset at any point survives exactly if it leaves a tombstone the pass respects, or the pass is pushing a removal, or nothing is left to be adopted |
| `SyncRaces.UndisturbedIsFullPass` | app/model_sync.py:111-170 | with nobody else about, every order of the steps ends with both tables at the full pass |
| `SyncRaces.SharedEntryArrives` | app/model_sync.py:131-162 | an entry another install writes before the pass has fetched, for a keyword with no row here, arrives with it |
| `SyncRaces.PassCanEnd` | app/model_sync.py:111-170 | from every point a pass can reach, its remaining steps lead to its end |
| `SyncRaces.EditDuringPushIsLost` | app/model_sync.py:112-162 | for every table and every pending row there is a pass that takes an edit of it back to the model pushed |
| `SyncRaces.ResetDuringPushIsUndone` | app/model_sync.py:112-162 | and one that undoes a reset of it |
| `SyncRaces.EditDuringPullIsLost` | app/model_sync.py:140-162 | an edit of a row whose adoption is still to come can be overwritten by it |
| `Fleet.EventKeepsOrder` | app/model_sync.py:93-176 | no edit, reset, request or local write of any install, whether it succeeds or not, breaks the tables or a pass under way |
| `Fleet.FinishedIsClean` | app/model_sync.py:111-170 | once edits stop, an install that has finished a pass has nothing pending from then on |
| `Fleet.CleanRunAgrees` | app/model_sync.py:131-170 | while all are clean the shared table is fixed, and whoever completes a pass then agrees with it for good |
| `Fleet.Convergence` | app/model_sync.py:111-170 | after edits stop, once every install has finished a pass and then each completes another, all agree with the shared table, however all the requests interleave and whatever passes fail in between |
| `Fleet.NoResurrection` | app/memory/store.py:1596-1633 | one reset of a shared keyword that nobody else changes means the default through any number of passes, and after the first that finishes it is in neither table |
| `Fleet.EditSpreads` | app/model_sync.py:110-138 | an edit nobody contests means its model here through any number of passes, failed or not, and once a pass here has finished the shared table says so |
| `Fleet.PushLeaves` | app/model_sync.py:112-138 | one push, however its request ends, leaves the tables of a pass that has got that far |
| `Fleet.PushShows` | app/model_sync.py:112-138 | and the shared table shows it exactly if the request was applied, answered or not |
| `Fleet.FailedPushStops` | app/model_sync.py:112-138 | one that is not answered stops the pass as the single-install model says |
| `Fleet.PassIsFullPass` | app/model_sync.py:93-176 | the events of one install's answered pass amount to the full pass of the single-install model |
| `Fleet.BegunPassIsFullPass` | app/model_sync.py:93-176 | so from the beginning of a pass to its end |
| `Outbox.OutboxStore.AddPush` | app/memory/store.py:1267-1296 | an id already taken is a no-op, otherwise a pending row is added; ids stay distinct |
| `Outbox.OutboxStore.MarkPushDelivered` | app/memory/store.py:1317-1326 | only a pending row changes, and the result says whether one did |
| `Outbox.OutboxStore.ExpirePushes` | app/memory/store.py:1345-1359 | exactly the pending rows older than the cutoff expire |
| `Outbox.QueueHolds` | app/memory/store.py:1298-1315 | the queue is the pending rows, oldest first |
| `Outbox.TiesInOrder` | app/memory/store.py:1298-1304 | rows of the same time are queued in the order they were inserted |
| `Outbox.BatchIs` | app/memory/store.py:1298-1305 | a batch is the oldest pending rows, as many as asked for but at least one, or all there are |
| `Outbox.QueueMarked` | app/memory/store.py:1298-1326 | marking a row removes it from the queue and keeps the order of the rest |
| `Outbox.Deliverer.Bind` | app/push.py:109-118 | the newest connection of a session replaces the sink it had, and no other |
| `Outbox.Deliverer.Unbind` | app/push.py:120-135 | a sink goes unless a different connection has bound since |
| `Outbox.UnboundIff` | app/push.py:120-135 | unbinding takes the sink down unless both sides carry tokens and these differ, and touches no other session |
| `Outbox.StaleUnbindIsIgnored` | app/push.py:120-135 | with both tokens present, unbinding has an effect only for the connection that is bound |
| `Outbox.Deliverer.FanOut` | app/push.py:215-240 | the frame has landed exactly if some target took it, and the sinks are what the failures' unbinding, each by its own token, and whatever other handlers do meanwhile leave |
| `Outbox.FanOutDrops` | app/push.py:215-240 | with nobody coming or going, exactly the targets that did not take the frame are unbound |
| `Outbox.ReplacementStays` | app/push.py:215-240 | a connection that joins while a frame is being sent is not unbound by the failure of the one it replaced, not even at that frame |
| `Outbox.NewcomerIsBoundIff` | app/push.py:215-240 | such a connection is bound in the end exactly if no failure from then on carries its own token or none |
| `Outbox.LeaverIsGone` | app/push.py:120-135 | a connection that leaves during the sends and does not come back is not bound afterwards |
| `Outbox.Deliverer.SendRow` | app/push.py:177-203 | one row is offered to everyone idle now and marked only after it was taken; no steady connection is dropped or replaced |
| `Outbox.Deliverer.Flush` | app/push.py:156-206 | whoever comes and goes meanwhile: what lands is a prefix of the oldest-first batch under its own ids, exactly the landed rows whose marks succeed are marked, a steady taker gets all pending rows or as many as a batch (at least one) holds, and nothing happens with nobody ready |
| `Outbox.MarkedPrefix` | app/push.py:177-206 | landing and marking a prefix of the queue leaves the rest of it |
| `Outbox.DrainsInTime` | app/push.py:156-206 | with a taker for every frame and successful marks, each flush takes a batch, of at least one, off the queue, so `n` rows are gone after `ceil(n / batch)` |
| `Reminders.ReminderStore.UndeliveredReminders` | app/memory/store.py:1089-1106 | the list holds exactly the pending, timed, unfired reminders, each once |
| `Reminders.ReminderStore.MarkReminderFired` | app/memory/store.py:1130-1145 | the mark is made once, and the result says whether this was the time |
| `Reminders.Enqueue` | app/push.py:288-313 | blank text or a failed write records nothing and returns nothing; otherwise the trimmed text is filed under the drawn id |
| `Reminders.FireDue` | app/reminders.py:73-113 | for every candidate order and every failure the pass files first, marks second and counts what it filed |
| `Reminders.SentCounts` | app/reminders.py:87-113 | the count is of the listed reminders whose instant has come, with something to say, that were filed |
| `Reminders.FireOneAnnounces` | app/reminders.py:92-111 | a candidate is announced, in its own words, exactly if due, not blank, filed, and under an id not taken; it is marked whether or not the id was taken |
| `Reminders.PassAnnounces` | app/reminders.py:92-113 | each candidate that goes out gains exactly one announcement unless the id it draws is in the outbox or was filed earlier in the pass, the others none, and exactly those whose mark succeeds are newly fired |
| `Reminders.DueIsAnnounced` | app/reminders.py:54-111 | a listed reminder whose instant has come, with text and a filing that succeeds under a free id, gains one announcement |
| `Reminders.NotDueIsLeftAlone` | app/reminders.py:54-70 | one whose instant is still to come or whose time cannot be read gains none and is unchanged |
| `Reminders.PassHolds` | app/reminders.py:92-113 | after a pass the outbox holds exactly the ids it held and those of the candidates filed |
| `Reminders.MarkedIsSilent` | app/memory/store.py:1089-1145 | a reminder whose mark succeeded is on no later list and no later pass announces it |
| `Reminders.PassSkips` | app/reminders.py:92-113 | no reminder outside the list gains an announcement |
| `Reminders.PassKeepsEntries` | app/reminders.py:92-113 | a pass changes nothing about a reminder but its mark, and only of those listed |
| `Reminders.Acknowledge` | app/push.py:316-381 | any well-formed ack settles its push; only `complete` on a reminder push completes a reminder, only a reflection push retires a note, under either verb |
| `Reminders.OnlyItsOwnPushCompletes` | app/push.py:359-381 | an ack completes a reminder exactly if it is `complete` on a push of kind reminder that refers to it by number |
| `Reminders.NoteIsRetiredIff` | app/push.py:343-356 | an ack retires a note exactly if it is `complete` or `dismiss` on a push of kind reflection that refers to it by number |
| `Reminders.SettledBy` | app/push.py:332-381 | row by row, what an ack that goes through leaves of the outbox and the reminders |
| `DeliveryRuns.FireOneIsTwoSteps` | app/reminders.py:92-111 | the pass takes, for each candidate, the two steps of the run model, whatever id it draws |
| `DeliveryRuns.FlushIsRun` | app/push.py:177-206 | what a flush leaves is what a run of offers, landings and marks leaves |
| `DeliveryRuns.RunAges` | app/memory/store.py:1267-1359 | in every run a push keeps its contents and leaves `pending` at most once, for good |
| `DeliveryRuns.StepKeepsSound` | app/reminders.py:92-113 | every step, a crash or a repeated id included, keeps the pass consistent, the filings counted, every settled push justified and every completion asked for |
| `DeliveryRuns.FiredIsOnRecord` | app/reminders.py:92-113 | in every run with crashes and repeated ids anywhere: fired means a reminder push refers to it or a filing of it drew an id already taken; done means someone asked, directly or by `complete` on such a push; delivered or expired means taken, acknowledged or past the keep age |
| `DeliveryRuns.OncePerMark` | app/memory/store.py:1130-1145 | announcements of a reminder, plus the filings of it that drew an id already taken, are one for its mark plus one for each mark lost to a crash or a failed write |
| `DeliveryRuns.SetAndTicked` | app/memory/store.py:1089-1145 | in every run a reminder keeps the words and the time it was set with, and once ticked off stays done |
| `DeliveryRuns.PostStays` | app/memory/store.py:1267-1359 | what is posted under a new id is there in every later table, as posted but for its status |
| `DeliveryRuns.CompleteTicksOff` | app/push.py:316-381 | a `complete` that goes through on the push of a reminder leaves the push settled and the reminder done for good |
| `Handover.DueIsFiled` | app/reminders.py:73-113 | a candidate that goes out under an id not taken is in the outbox, pending, after the pass |
| `Handover.AnyStepIsMeanwhile` | app/push.py:156-206 | every step of the delivery model, with a clock that does not run backwards, only ages the rows there are and adds later ones |
| `Handover.WaitIsBounded` | app/push.py:156-206 | however filings, acknowledgements, partial flushes and expiry fall between them and between their sends, each flush that takes its whole batch brings a pending push a batch nearer its turn |
| `Handover.RunIsWholeFlush` | app/push.py:177-206 | a stretch of a run that marks every row of the batch it began with is such a flush, whatever other steps it holds |
| `Handover.DueReachesTheClient` | app/reminders.py:73-113 | a due reminder goes into the outbox on the next pass that files it under a new id and is no longer waiting once enough flushes that take their whole batch have come round to cover the queue, whatever else happens; it is then delivered exactly if no move expired it |
| `Handover.OnlyAgeExpires` | app/memory/store.py:1345-1359 | nothing but expiry expires a pending push, and it only one older than its cutoff |
| `Handover.FlushesOnlyDeliver` | app/push.py:177-206 | flushes with nothing else in between expire nothing |
| `Confirm.Confirmations.Bind` | app/confirm.py:101-104 | the newest connection's sender and token replace the old and nothing else changes |
| `Confirm.Confirmations.Unbind` | app/confirm.py:106-126 | a stale unbind changes nothing; otherwise everyone still waiting is refused and the table emptied |
| `Confirm.Confirmations.Open` | app/confirm.py:133-154 | with nobody connected no id is spent; otherwise the next id is listed and waiting |
| `Confirm.Confirmations.Resolve` | app/confirm.py:176-189 | only a listed, unanswered id takes an answer |
| `Confirm.Confirmations.Close` | app/confirm.py:155-174 | the verdict follows from how the wait ended, and the id is gone however it ended |
| `Confirm.LastEntryDecides` | app/confirm.py:223-236 | after any listing a tool is gated as its last readable entry says |
| `Confirm.UnnamedIsUnchanged` | app/confirm.py:223-236 | a listing without a readable entry for a tool leaves its gate alone |
| `Confirm.GatedIff` | app/confirm.py:223-239 | a tool is gated only by a listing whose last entry for it says so |
| `Confirm.ConfirmBroker.ListTools` | app/confirm.py:223-236 | the loop applies exactly the readable entries, in order |
| `Confirm.ConfirmBroker.CallTool` | app/confirm.py:238-249 | a gated call reaches the wrapped broker exactly if approved; an approved one runs under the run's own bind plus the flag, and the bind is back afterwards exactly when no bind raised |
| `Confirm.ConfirmBroker.CallConfirmed` | app/confirm.py:264-291 | what the call ran under and what is left bound, for every way the two binds can go |
| `Approvals.GateHolds` | app/confirm.py:133-249 | in every interleaving a tool reaches the wrapped broker only if not gated when called, or after a yes to the id minted for that very call, given after the call and while it was waiting |
| `Approvals.SettlesOnce` | app/confirm.py:133-174 | each request settles at most once, and its id is never open again |
| `Approvals.ReachesIff` | app/confirm.py:238-249 | a call goes through exactly if it is not gated, or when its wait ends with the yes that was given |
| `Approvals.AnswerDecides` | app/confirm.py:155-189 | the first answer a request gets while it waits decides it: on a yes the call goes through when it wakes, on a no it does not, and no disconnect changes that |
| `Approvals.ListingHolds` | app/confirm.py:223-236 | what a listing says of a tool holds for that broker until a later one names the tool |
| `Approvals.OnlyItsOwnDetaches` | app/confirm.py:101-126 | right after a connection has bound, a handler with another token cannot detach it, and any other can |
| `Approvals.ApprovalIsSpentOnce` | app/confirm.py:238-249 | one approval runs one call |
| `Approvals.DisconnectRefuses` | app/confirm.py:106-126 | no call asked about before a disconnect runs on a later yes, even over a new connection; a stale disconnect changes nothing |
| `Turns.StepKeepsOne` | app/main.py:302-346 | every step keeps at most one turn task live, and only that one writes turn frames |
| `Turns.StepKeepsOrder` | app/main.py:300-391 | every step keeps the wire disciplined and each task's phase in agreement with what it has written |
| `Turns.FrameDiscipline` | app/pipeline.py:443-458 | over every interleaving each binary frame's most recent `audio_chunk` is its own, a turn numbers its sentences 0, 1, 2, ..., and `turn_complete` reports exactly the sentences whose audio was written |
| `TurnRuns.WholeTurn` | app/main.py:318-346 | whenever the loop is free and no turn is live, a turn of any number of sentences can be taken to its `turn_complete`, and the connection is idle again |
| `TurnRuns.InterruptEnds` | app/main.py:302-316 | wherever a run waits for an interrupted turn, that turn can end at once with no further sentence, and the loop goes on |
| `TurnRuns.ErrorIsReported` | app/main.py:627-671 | a turn that goes wrong, wherever it is, can end by saying so, with `thinking` off first if it had begun to talk |
| `TurnRuns.PushLands` | app/push.py:156-206 | an idle connection takes a push, whether or not others are written to first |
| `Turns.TurnsAreWhole` | app/push.py:177-206 | turns follow one another on the wire without overlapping, and with one bound sink no push is written inside a turn |
| `Turns.OtherSinksDisturb` | app/push.py:208-240 | for every number of sinks ahead of this one a push can land between an `audio_chunk` and its bytes |
| `Turns.FollowedAtOnceIff` | app/protocol.py:322-323 | over every interleaving the bytes of each sentence are the very next frame after its `audio_chunk` exactly if no reply of the receive loop and no push held back is written between the two |
| `Turns.RepliesDivide` | app/main.py:369-377 | with one sink a reply can be |

## Left out

- Speech recognition and synthesis, the language model, the agent runtime and its MCP client, FastAPI and httpx: foreign calls, reduced to success, failure and the value returned.
- SQLite, full-text search and migrations: tables are maps or lists, and a search result is any list of distinct active facts.
- Prompt text, personas, status and review panels, frame factories, configuration, voice and knob validation, telemetry: records and one-branch checks.
- Date parsing and time zones: a due time is absent, unreadable or an instant.
- Floating-point rounding of scores and clocks: the reals are used.
- `ClientTools`: the same shape as `Confirmations` without the token.
- The choice of the consolidation batch (`facts_changed_since`) and parsing of the model's plan: both are arbitrary.
- `updated_at` of keyword rows, `_status`, log lines and report summaries.
- Two sync passes of one install at the same time; and edits inside a pass that is cut short: `SyncRaces` is about passes that reach their end.
- Two connections of one session at once, which share its conversation and can interleave their messages: `Conversations.ThinkAndSpeak` is one turn undisturbed.
- Failed reads and writes of the fact table: its methods always succeed.
- Reflections: an acknowledgement says which note it retires; the table of notes itself is not modelled.
- Server shutdown, which cancels the deliverer and the receive loop themselves.
- Keywords.Catalogue.EnsureLoaded: the table can always be read; when it cannot, the source caches an empty one.
- Handover.DueReachesTheClient: supposes a clock that does not run backwards: nothing is filed later with a creation time before that of the rows there already.
- Reminders.Acknowledge: its three store calls are one step, each of which may fail; another task's writes between them are not interleaved.
- Turns.FrameDiscipline: a write is one step, so a frame cancelled halfway through being written is either on the wire or not.
- Confirm.Confirmations.Resolve: ids that are not of the form `k` and a number are one case, as no request ever has one.
- SentenceSplitting.StreamSentences: returns the whole list; that the source yields lazily is not captured.

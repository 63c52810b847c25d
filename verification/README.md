# Verification of the bid backend

Dafny models of the parts of the backend that carry real invariants, with proofs. Each module
follows one component and keeps its form: objects that change state are classes, loops are
loops, queries are functions.

| module | component |
|---|---|
| `MatchRefresh` | keeping `match_results` fresh: incremental upsert, nightly rebuild, profile save |
| `Deployment` | the blue/green deployment script with rollback and reboots |
| `ChatSessions` | chat turns over stored sessions, interleaved with deletes |
| `ChatLimits` | sliding window, concurrency slots and daily counter in front of the chat |
| `EventSink` | the bounded event buffer with swap-out, upload and requeue |
| `EmbeddingCache` | the embedding LRU cache and the call it speeds up |
| `LikePattern`, `BidSearch` | escaping, search filters, deadline orders and pages |
| `MatchOrdering` | the orders of the matching list |
| `Recommendation` | scores, the fold to the best signal, ranking, deduplication and cut-off |
| `InstitutionRollup`, `StatsViews` | the two statistics views and their reader |
| `Accounts` | just-in-time accounts and withdrawal |
| `Ordering`, `Grouping`, `Collections`, `Wrappers` | shared: sorting and pages, GROUP BY, sets, optional values |

Concurrent components are state machines over their committed steps, with theorems about every
run; beside each stands the class or method that performs the steps, proved against the same
functions. The database is tables with atomic statements or calls. Foreign calls (the match
function, the agent, the embedding service, S3, Docker and Nginx commands) are uninterpreted
functions or success/failure choices.

## What the proofs found

- A profile save moves the watermark of all companies, so an open bid normalised shortly before
  can be lost for another company; so does a cycle that breaks off. `ProfileSaveIsSafeIffNoGap`
  and `AbortedCycleIsSafeIffNoGap` give the exact conditions.
- The rollback of a deployment ignores failures of its own commands and always removes the
  candidate; `RollbackServesIff` says exactly when the site survives. A first deployment that
  fails after moving the link leaves Nginx stopped when the legacy unit was active; one that
  finishes leaves an idle but enabled legacy unit enabled (`FirstRunEndsAtRestIff`). A reboot
  between the move of the link and the disabling of an enabled legacy unit brings both Nginx and
  the unit up for port 8000 (`RebootDuringAFirstRun`; `deploy/bidmate-api.service:17`,
  `deploy/nginx/blue.conf:7`). A failed first deployment also leaves an active legacy unit enabled
  that had not been (`FailedFirstRunRestoresLegacy`).
- A last-turn delete inside an open turn leaves an answer without its question
  (`UndoneTurnOrphansItsAnswer`; exactly when, `RunsAlternateIffAnswered`).
- The clock of the chat limiter is read before its lock; for every limit above one any lateness
  of entry lets calls exceed it (`WindowsHoldIffInOrderOrOne`).
- Concurrent flushes of the event sink upload in order only if they end in turn
  (`RunsStayInOrderIffInTurn`).
- Raw search scores above one can make an extra signal lower a bid, in exactly the case of
  `ExtraSignalLowersIffItDisplaces`.
- Institution names are used as LIKE patterns: wildcards or escapes in names break the roll-up
  (`WildcardsBreakIdempotence`, `EscapesBreakIdempotence`; exactly when, `IdempotentIffNoTwoSteps`).
- The link of an account updates by primary key a row that may have been withdrawn since it was
  found, which revives the withdrawn sub (`LinkRevivesAWithdrawnSub`). Two subs with one address
  can take the row from each other, and then one of them may get a second company
  (`SignInsConvergeIffAddressIsOwn`).
- Where the comment of `app/services/recommendation_service.py:71` says the first of duplicate
  rows is used, the code keeps the last; the model follows the code (`LastRowWins`).

## Model

| member | source | states |
|---|---|---|
| MatchRefresh.Latest | app/infra/db/repositories/match_repository.py:181-191 | The newest stamp, or nothing over no rows |
| MatchRefresh.ShownUntilTheClose | app/infra/db/repositories/match_repository.py:36-49 | Past its close a bid is neither shown nor computed; until then a rebuild shows every bid with its verdict |
| MatchRefresh.ShownIsRebuiltIffCovered | app/infra/db/repositories/match_repository.py:36-49 | Over any set of bids the deadline-filtered list equals the one after a full rebuild if and only if every open bid has its true row |
| MatchRefresh.VisitCovers | app/infra/db/repositories/match_repository.py:200-217 | Visiting a company, incrementally or fully, leaves it right on every bid the cycle reaches |
| MatchRefresh.NewlyDueIsBrought | app/services/match_refresh.py:67-74 | What a new stamp makes due while a cycle runs, the cycle has brought every company it visited, or will bring it |
| MatchRefresh.StepKeepsInv | app/services/match_refresh.py:47-77 | Normalisation, cycle start, one company of any running cycle, a broken-off cycle, withdrawal, creation, a profile save and a rebuild each keep: what is due is right or a running cycle will bring it |
| MatchRefresh.RunsStayFresh | app/services/match_refresh.py:16-77 | In every run, with any number of overlapping cycles, whenever none is running each open bid normalised a minute or more before `max(computed_at)` is right for every active company that is not stale |
| MatchRefresh.FinishedCycleShowsTheRebuiltList | app/services/match_refresh.py:47-77 | After a cycle that was not skipped, with no other running, every active company that is not stale sees, over the bids committed before its start, the list a full rebuild would give |
| MatchRefresh.FullPassRestoresAnyTable | app/infra/db/repositories/match_repository.py:135-155 | A full pass leaves exactly the computed rows of each company whatever the table held |
| MatchRefresh.LaterVisitsLeaveRows | app/services/match_refresh.py:65-77 | Later visits of the same pass do not touch the rows of a company already visited |
| MatchRefresh.ProfileSaveIsSafeIffNoGap | app/api/v1/profile.py:63-64 | A profile save keeps the freshness promise if and only if no open bid lies between the old and the new watermark, each less a minute, or no other company is active |
| MatchRefresh.GapStrands | app/api/v1/profile.py:63-64 | Whenever there is such a bid, some fresh table stops being fresh for another company |
| MatchRefresh.ProfileSaveCanStrandABid | app/services/match_refresh.py:67-74 | Concrete tables on which a profile save makes the next cycle skip, so that another company does not get an open bid in it |
| MatchRefresh.SaveWithoutRebuildIsSafeIffVerdictsAgree | app/api/v1/profile.py:62-67 | A save whose rebuild fails keeps the promise if and only if the new profile has the old verdicts on all settled open bids |
| MatchRefresh.AbortedCycleIsSafeIffNoGap | app/services/match_refresh.py:65-77 | A cycle that breaks off after any number of companies keeps the promise if and only if all were visited, or every open bid its visits settle was settled before |
| MatchRefresh.AbortWithGapStrands | app/services/match_refresh.py:65-77 | Whenever there is such a gap, some fresh table stops being fresh for a company not visited |
| MatchRefresh.MatchRefreshService.RecomputeForCompany | app/infra/db/repositories/match_repository.py:135-155 | The company has exactly the computed rows; nobody else changes; the count is theirs |
| MatchRefresh.MatchRefreshService.UpsertSince | app/infra/db/repositories/match_repository.py:200-217 | Rows of bids normalised after the bound are inserted or overwritten, all others kept |
| MatchRefresh.MatchRefreshService.ActiveCompanyIds | app/infra/db/repositories/match_repository.py:193-198 | Exactly the active companies, once each, ascending |
| MatchRefresh.MatchRefreshService.Pass | app/services/match_refresh.py:65-77 | The loop over the companies gives the tables of all their visits in order and the sum of written rows |
| MatchRefresh.MatchRefreshService.RunOnce | app/services/match_refresh.py:47-77 | A full refresh is skipped only when nobody is active, any other also when there is no bid or some row is as new as every normalisation; a skipped one changes nothing; the others leave each active company, in order of id, exactly its computed rows (full, or no row at all before), or its old rows with the bids normalised since the newest stamp less a minute computed anew |
| MatchRefresh.DecideMeans | app/services/match_refresh.py:52-75 | When a refresh has nothing to do, rebuilds, or updates, and from which bound, in terms of the tables |
| MatchRefresh.PassRefreshes | app/services/match_refresh.py:57-77 | The pass of any refresh that is not skipped leaves just those rows |
| MatchRefresh.RefreshFromFreshCoversAll | app/services/match_refresh.py:47-77 | From fresh tables a refresh that is not skipped leaves every active company right on every bid there is |
| MatchRefresh.MatchRefreshLoop | app/services/match_refresh.py:80-121 | A tick is a full refresh when it is the full hour and the last full refresh that succeeded was of another date |
| MatchRefresh.FullRefreshOncePerDate | app/services/match_refresh.py:95-114 | While dates do not go back, the full refresh is retried in its hour until one succeeds and not repeated that date |
| Deployment.HistoriesKeepServing | deploy/deploy-blue-green.sh:147-335 | Over any sequence of non-first runs failing anywhere after the trap, and reboots at any point, the container Nginx serves is running, with the port to itself, at every step and after a reboot at any step |
| Deployment.ForwardKeepsInv | deploy/deploy-blue-green.sh:235-335 | Every command, succeeding or failing half way, keeps the relation between link, loaded slot, record, containers and flags |
| Deployment.UndoKeepsInv | deploy/deploy-blue-green.sh:154-202 | Every command of the rollback keeps it |
| Deployment.StepKeepsInv | deploy/deploy-blue-green.sh:74-335 | So does starting a run and rebooting |
| Deployment.FailedRunRestores | deploy/deploy-blue-green.sh:154-202 | A failed run ends with link, loaded slot and old container as before, the state file naming the old slot and the candidate removed |
| Deployment.FinishedRunSwitches | deploy/deploy-blue-green.sh:292-335 | A finished run ends with link, loaded slot and state file on the candidate, which runs the version of the run, and the old container stopped with the version it had |
| Deployment.FinishedRunsDeployTheVersion | deploy/deploy-blue-green.sh:71-335 | A run from a host at rest that gets to its end leaves exactly the other slot serving the version asked for and the old container stopped; one that fails leaves the host as it was, but for the repaired state file and the removed candidate |
| Deployment.WorkingRunDeploys | deploy/deploy-blue-green.sh:235-335 | From any host at rest every command in turn can succeed, whatever the other slot held, and the run then deploys the version |
| Deployment.ChecksHold | deploy/deploy-blue-green.sh:204-233 | A start goes on only with the name free, the reload only with Nginx up, and the smoke test only when Nginx serves the candidate running the version asked for, with the port to itself |
| Deployment.FailuresMayTakeEffect | deploy/deploy-blue-green.sh:261-335 | A failing command may have done nothing or, unless it is a rename or a check, all of its work |
| Deployment.NextRunAdoptsTheLink | deploy/deploy-blue-green.sh:74-152 | After a reboot at any point the next run is not refused, adopts the slot of the link and repairs the state file |
| Deployment.RebootServesIff | deploy/deploy-blue-green.sh:276 | A reboot comes back serving if and only if the linked container runs and the legacy unit is not enabled |
| Deployment.RollbackServesIff | deploy/deploy-blue-green.sh:162-201 | With rollback commands failing in any combination, the site is up afterwards if and only if traffic returned to a running old container, or stayed on a candidate whose removal failed |
| Deployment.FailedReloadTakesTheSiteDown | deploy/deploy-blue-green.sh:181-198 | A reload that fails in the rollback after the cutover takes the site down |
| Deployment.RollbackNeverStartsNginx | deploy/deploy-blue-green.sh:176-183 | No command of the rollback starts an Nginx that is down |
| Deployment.FirstRunsKeepInv | deploy/deploy-blue-green.sh:122-335 | The first deployment keeps its own invariant at every command: Nginx and the legacy unit never hold the port together |
| Deployment.FailedFirstRunRestoresLegacy | deploy/deploy-blue-green.sh:169-198 | A failed first deployment gives port 8000 back to the legacy unit; after the link moved it leaves, if the unit was active, Nginx stopped and the unit enabled, else both as they were |
| Deployment.FinishedFirstRun | deploy/deploy-blue-green.sh:292-335 | A finished first deployment serves the version asked for from the first slot, and is at rest, so that later histories keep serving, if and only if the legacy unit is not enabled |
| Deployment.WorkingFirstRunDeploys | deploy/deploy-blue-green.sh:235-335 | In a first run too every command in turn can succeed, and an active legacy unit ends up disabled |
| Deployment.FirstRunEndsAtRestIff | deploy/deploy-blue-green.sh:327-329 | If disabling the legacy unit works, that is if and only if the unit had been running or had not been enabled |
| Deployment.RebootDuringAFirstRun | deploy/deploy-blue-green.sh:74-152 | A reboot during the commands of a first run leaves a fresh host before the link moved; after that a host at rest if and only if the legacy unit is not enabled, else both hold the port; the next run goes on from the slot of the link |
| Deployment.DeployScript.FindSlots | deploy/deploy-blue-green.sh:74-152 | The run goes on if and only if there is neither link nor record, or the linked container runs; it then works from the linked slot to the other one, with the version asked for; the record is repaired and nothing else changes |
| Deployment.DeployScript.Execute | deploy/deploy-blue-green.sh:235-335 | One command with any outcome it can have: the next command, or the rollback |
| Deployment.DeployScript.RollbackAll | deploy/deploy-blue-green.sh:154-202 | The whole trap restores what the run found |
| Deployment.DeployScript.Deploy | deploy/deploy-blue-green.sh:74-335 | A deployment from a host at rest leaves the other slot serving the version asked for, or takes everything back, and its whole history keeps serving; a refused one stops at the detection |
| ChatSessions.OneTurnInFlightAndCapped | app/agents/chat_service.py:47-87 | In every interleaving of turns, failures and deletes a session has at most one turn in flight and at most the cap of user messages |
| ChatSessions.StepKeepsInv | app/agents/chat_service.py:47-87 | Every single step keeps mutual exclusion, the cap and the owner of open turns |
| ChatSessions.OwnersNeverChange | app/infra/db/repositories/chat_repository.py:42-71 | A session keeps its owner and stays deleted once deleted |
| ChatSessions.DeletedSessionsGoQuiet | app/infra/db/repositories/chat_repository.py:91-109 | Once deleted, a session gets no further user message and at most one more message, the answer its turn in flight waited for |
| ChatSessions.DeleteMarks | app/infra/db/repositories/chat_repository.py:139-151 | Only the owner's delete marks a session that is not deleted yet, and nothing else changes |
| ChatSessions.DeleteQuiets | app/infra/db/repositories/chat_repository.py:139-151 | From that delete on, whatever is under way, the session gets at most one more message, an answer |
| ChatSessions.HistoriesAlternate | app/infra/db/repositories/chat_repository.py:67-109 | In runs whose last-turn deletes wait for open turns every history is user messages each followed by at most one answer, and empties in exactly `count_turns` deletes |
| ChatSessions.NoOrphansIffAlternating | app/infra/db/repositories/chat_repository.py:153-181 | A history alternates if and only if no answer lacks its question |
| ChatSessions.UndoCallsCount | app/infra/db/repositories/chat_repository.py:153-181 | Emptying a history takes one delete per turn plus one per orphaned answer |
| ChatSessions.UndoEmptiesInTurnsIffAlternating | app/infra/db/repositories/chat_repository.py:73-89 | It takes exactly `count_turns` deletes if and only if the history alternates |
| ChatSessions.UndoReversesATurn | app/infra/db/repositories/chat_repository.py:153-181 | A delete after a turn, answered or failed, gives back the exact earlier messages |
| ChatSessions.DeleteLastTurnReversesATurn | app/infra/db/repositories/chat_repository.py:42-109 | On the stored rows too: the earlier history, with the context cleared |
| ChatSessions.UndoInsideATurn | app/infra/db/repositories/chat_repository.py:153-181 | A delete inside an open turn orphans the answer unless the turn before had failed, and then the answer lands under that older question |
| ChatSessions.RunsAlternateIffAnswered | app/infra/db/repositories/chat_repository.py:67-109 | In any run, whatever deletes fall into open turns, all histories alternate throughout if and only if every answer is stored under a question |
| ChatSessions.StepAlternatesIffAnswered | app/infra/db/repositories/chat_repository.py:67-109 | And so for each step |
| ChatSessions.UndoneTurnOrphansItsAnswer | app/infra/db/repositories/chat_repository.py:153-181 | For every first turn the run in which its question is deleted before the agent answers leaves the answer alone in the history |
| ChatSessions.AgentChatService.CountTurns | app/infra/db/repositories/chat_repository.py:73-89 | The number of user messages, zero for a new session, refused for a foreign or deleted one |
| ChatSessions.AgentChatService.OpenTurn | app/infra/db/repositories/chat_repository.py:42-71 | Creates the row if needed, appends the question, returns the stored context; refused for a foreign or deleted session |
| ChatSessions.AgentChatService.CloseTurn | app/infra/db/repositories/chat_repository.py:91-109 | Appends the answer and replaces the context |
| ChatSessions.AgentChatService.SoftDeleteSession | app/infra/db/repositories/chat_repository.py:139-151 | Marks only an accessible session, and changes nothing else |
| ChatSessions.AgentChatService.DeleteLastTurn | app/infra/db/repositories/chat_repository.py:153-181 | Removes an answer with its question, or the last message alone, and clears the context |
| ChatSessions.AgentChatService.Chat | app/agents/chat_service.py:69-87 | Which of busy, not found, capped, failed and answered a call gets, the agent being called only below the cap and with the stored context; the sessions after each; the mutex given back; the cap kept |
| ChatSessions.ChatIsARun | app/agents/chat_service.py:69-87 | Every whole call is a run of the interleaved steps, alone among any other turns, and gave the agent the stored context, so the theorems about runs hold of it |
| ChatSessions.AgentGetsTheLastContext | app/agents/chat_service.py:81-86 | In any run the agent of a turn is given the context of the last answer stored in its session, none after an undone turn or in a new session |
| ChatLimits.PrunedIsRecent | app/agents/chat_rate_limit.py:36-40 | With calls in clock order the pruned deque is as long as the last minute of the full admission history |
| ChatLimits.CheckFollowsTheFullHistory | app/agents/chat_rate_limit.py:34-43 | A call is admitted if and only if fewer than the limit of all admissions ever fall in its last 60 seconds |
| ChatLimits.GuardAdmitsByTheFullHistory | app/agents/chat_rate_limit.py:34-43 | So in any run of calls in clock order, for every call |
| ChatLimits.GuardKeepsItsHistory | app/agents/chat_rate_limit.py:34-43 | Any limit + 1 successive admissions span at least 60 seconds |
| ChatLimits.WindowsHoldAtMostLimit | app/agents/chat_rate_limit.py:34-43 | Every 60-second window, half open at either end, holds at most the limit of admissions |
| ChatLimits.CrashesIffNoLimit | app/agents/chat_rate_limit.py:40-42 | The read of an empty deque fails if and only if the limit is not positive and nothing is recent |
| ChatLimits.WaitIsEarliestAdmission | app/agents/chat_rate_limit.py:40-42 | The untruncated wait of a refusal is the earliest time at which a call is admissible |
| ChatLimits.RetryAfterFallsShortByLessThanASecond | app/agents/chat_rate_limit.py:19-21 | `Retry-After` falls short of the wait by less than a second, and is one second for shorter waits |
| ChatLimits.WindowsHoldIffInOrderOrOne | app/agents/chat_rate_limit.py:36-43 | All runs whose calls enter at most d seconds late keep every 60-second window within the limit if and only if d is not positive or the limit is below two |
| ChatLimits.LateCallsExceedTheLimit | app/agents/chat_rate_limit.py:36-37 | For every limit of at least two and every lateness a run that puts one admission too many into a minute |
| ChatLimits.OneAtATimeIsSpaced | app/agents/chat_rate_limit.py:34-43 | With a limit of one admissions are 60 seconds apart in whatever order calls enter |
| ChatLimits.StepKeepsInv | app/api/deps.py:253-283 | Each step of any request keeps: counter equals holders, within the cap, handled equals the smaller of counted and daily cap |
| ChatLimits.SlotsAndDailyCapHold | app/api/deps.py:253-283 | In every interleaving of requests and outcomes the counter equals the requests holding a slot, never exceeds the cap and is absent when idle; at most the daily cap of requests per company and date is handled |
| ChatLimits.RequestIsARun | app/api/deps.py:253-283 | Every whole request is a run of the interleaved steps, alone among any others, decided by the slots held and the requests counted: it ends with the same slots, counted once it had one, handled if it was within both caps |
| ChatLimits.InMemoryChatGuard.CheckMinute | app/agents/chat_rate_limit.py:34-43 | The decision and the new deque, from the old deque and the clock |
| ChatLimits.InMemoryChatGuard.Acquire | app/agents/chat_rate_limit.py:45-50 | Counts up below the limit, refuses otherwise |
| ChatLimits.InMemoryChatGuard.Release | app/agents/chat_rate_limit.py:52-58 | Counts down, and removes the entry at one |
| ChatLimits.ChatAdmission.IncrAndGet | app/infra/db/repositories/chat_usage_repository.py:40-46 | The stored counter of company and date, plus one |
| ChatLimits.ChatAdmission.EnforceChatLimits | app/api/deps.py:253-283 | Which limit refuses a request, what each outcome counts, and the slot given back in all of them |
| EventSink.StepConserves | app/infra/s3/event_sink.py:46-77 | Add, swap, upload and requeue each keep every event in exactly one place |
| EventSink.EveryEventInExactlyOnePlace | app/infra/s3/event_sink.py:46-77 | In every interleaving of adds and concurrent flushes each added event is once in uploaded, in flight, buffered or dropped, and the buffer stays within 50,000 |
| EventSink.StepDropsTheOverflow | app/infra/s3/event_sink.py:46-77 | A step drops exactly as many events as buffer, returned batch and new event exceed 50,000, and then leaves a full buffer |
| EventSink.FittingStepsKeepAll | app/infra/s3/event_sink.py:46-77 | While they fit, an event joins the end of the buffer, a failed batch its front, a swap takes all of it, and an upload is of the whole batch |
| EventSink.RunsLoseNothingIffAlwaysFits | app/infra/s3/event_sink.py:46-77 | A run of adds and concurrent flushes loses an event if and only if some step brings more than fits |
| EventSink.StepKeepsOrder | app/infra/s3/event_sink.py:46-77 | With one flush at a time each step keeps uploaded, in flight, buffered an ordered subsequence of the adds and drops the oldest of what it held |
| EventSink.SingleFlusherKeepsOrder | app/infra/s3/event_sink.py:60-77 | So in every run with one flush at a time |
| EventSink.UploadKeepsOrderIffOldest | app/infra/s3/event_sink.py:60-77 | With several flushes at once a finished upload keeps uploaded, in flight, buffered in the order of the adds if and only if it was the oldest batch |
| EventSink.RequeueKeepsOrderIffNewestOrFull | app/infra/s3/event_sink.py:68-76 | A failed upload keeps it if and only if it was the newest batch or the buffer is full |
| EventSink.RunsStayInOrderIffInTurn | app/infra/s3/event_sink.py:46-77 | A run with any number of concurrent flushes stays in order if and only if every flush ends in turn |
| EventSink.TwoFlushersReorder | app/infra/s3/event_sink.py:60-77 | For instance two flushes of which the first fails after the second has gone up |
| EventSink.S3EventSink.Flush | app/infra/s3/event_sink.py:60-77 | Uploads the buffer whole and empties it, or leaves everything where it was but what exceeds the bound |
| EventSink.S3EventSink.Add | app/infra/s3/event_sink.py:46-58 | Appends, drops exactly the oldest over the bound, uploads all at the threshold; a failed upload stays inside and keeps the buffer |
| EmbeddingCache.HoldsTheMostRecent | app/infra/search/recommendation_search.py:48-64 | After any history of reads and writes the cache holds exactly the `maxsize` most recently used distinct keys in recency order |
| EmbeddingCache.RecencyIsByLastUse | app/infra/search/recommendation_search.py:48-64 | Recency order is by last use: of two keys the later one was used after every use of the earlier one |
| EmbeddingCache.LastPairIsStored | app/infra/search/recommendation_search.py:58-62 | Of several pairs with one key the last is stored; other keys keep their vectors |
| EmbeddingCache.TouchOfNewest | app/infra/search/recommendation_search.py:58-64 | What was evicted earlier makes no difference to what is kept |
| EmbeddingCache.ApplyKeepsValid | app/infra/search/recommendation_search.py:48-64 | Every operation keeps keys distinct, values for exactly the keys, and the bound |
| EmbeddingCache.ApplyKeepsTruth | app/infra/search/recommendation_search.py:58-64 | Stored vectors are the true ones |
| EmbeddingCache.MissingAfterGet | app/infra/search/recommendation_search.py:108-110 | What the call sends is what the cache lacked, each text once |
| EmbeddingCache.MissingInOrder | app/infra/search/recommendation_search.py:110 | In the order of first occurrence: the texts of any beginning of the list come first |
| EmbeddingCache.NextCallSendsNothingIffTextsFit | app/infra/search/recommendation_search.py:104-117 | After an undisturbed call the same texts need no remote call if and only if, each taken once, they fit in the cache |
| EmbeddingCache.EmbeddingLru.GetMany | app/infra/search/recommendation_search.py:48-56 | The cached texts, moved to the recent end in the order asked |
| EmbeddingCache.EmbeddingLru.PutMany | app/infra/search/recommendation_search.py:58-64 | Stores, moves to the recent end, then evicts the oldest down to the size |
| EmbeddingCache.RecommendationSearch.Fetch | app/infra/search/recommendation_search.py:111-116 | Sends the missing texts and files a right-sized answer in the cache and in the call, else fails |
| EmbeddingCache.RecommendationSearch.Embed | app/infra/search/recommendation_search.py:104-117 | Equals mapping the remote function over the texts whatever other threads do to the cache meanwhile, or fails; what was sent is cached afterwards if it fits, and all texts are after an undisturbed call if and only if they fit |
| LikePattern.ReplacementsEscapeEachCharacter | app/infra/db/repositories/bid_repository.py:37-43 | The three ordered replacements equal escaping each character by itself |
| LikePattern.EscapedMatchesItself | app/infra/db/repositories/bid_repository.py:37-43 | An escaped text at the head of a pattern matches that text and nothing else |
| LikePattern.ContainsPatternMatchesOccurrences | app/infra/db/repositories/bid_repository.py:182-190 | The search pattern matches a text if and only if the search text occurs in it, for every search text |
| LikePattern.ContainsPatternIsWellFormed | app/infra/db/repositories/bid_repository.py:182-190 | The pattern never ends in an escape, so the database never rejects it |
| LikePattern.DanglingEscapeIsMalformed | app/infra/db/repositories/bid_repository.py:37-43 | An escape at the end makes any well-formed pattern malformed, and a character after it makes it well formed again |
| LikePattern.ILikeMatchesFoldedOccurrences | app/infra/db/repositories/bid_repository.py:184-190 | The same up to case |
| BidSearch.KeywordFindsContainingNames | app/infra/db/repositories/bid_repository.py:182-190 | A bid is found by a keyword if and only if its title, demander or issuer contains it up to case |
| BidSearch.DeadlineOrderMeans | app/infra/db/repositories/bid_repository.py:149-168 | The folded key orders open bids by nearest close, then closed by latest close, then undated, ties by id |
| BidSearch.RecentOrderMeans | app/infra/db/repositories/bid_repository.py:141-142 | Latest posting first, unknown last, ties by id |
| BidSearch.ListOrderMeans | app/infra/db/repositories/bid_repository.py:91-98 | Nearest close first, undated last, ties by id |
| BidSearch.SearchOrderIsTotal | app/infra/db/repositories/bid_repository.py:139-168 | With distinct ids both search orders are strict total orders |
| BidSearch.ListOrderIsTotal | app/infra/db/repositories/bid_repository.py:91-98 | So is the order of the home list |
| BidSearch.WithoutClosedBidsSearchIsTheListOrder | app/infra/db/repositories/bid_repository.py:149-168 | With closed bids filtered out the deadline order is the home order |
| BidSearch.PagesShowEveryMatchOnce | app/services/bid_service.py:105-119 | Consecutive pages concatenate to the sorted matches, each once, as many as `search_count`, and later pages are empty |
| BidSearch.FirstPagesArePages | app/services/bid_service.py:105-119 | The pages asked for by number are consecutive slices of one sorted list |
| BidSearch.FirstListPagesArePages | app/services/bid_service.py:54-77 | So are those of the home list |
| BidSearch.DefaultSearchIsTheHomeList | app/services/bid_service.py:79-119 | Paged to the end, the search without a keyword, or with a blank one, and the home list of all days show the same bids in the same order |
| BidSearch.SearchShowsExactly | app/services/bid_service.py:79-119 | A search finds exactly the merged, uncancelled bids of the category, not closed unless asked for, one of whose names contains the stripped keyword |
| BidSearch.ListShowsExactly | app/services/bid_service.py:34-77 | The home list shows exactly the merged, uncancelled, open bids of the category posted in the half-open interval |
| BidSearch.KeywordIsDroppedIffBlank | app/services/bid_service.py:95-104 | A keyword is ignored if and only if it is all white space |
| BidSearch.KeywordIsTheTextWithin | app/services/bid_service.py:95-104 | A kept keyword is the text without the white space around it, and no more is cut |
| Ordering.PagesConcatenate | app/services/bid_service.py:105-119 | Pages of any size concatenate to a prefix of the list |
| Ordering.SortBySorts | app/infra/db/repositories/bid_repository.py:121-147 | Sorting by a strict total order gives a strictly sorted rearrangement |
| Ordering.SortedIsUnique | app/infra/db/repositories/bid_repository.py:121-147 | Which is the only one |
| MatchOrdering.FractionsCompare | app/infra/db/repositories/match_repository.py:94-119 | Quotients compare as cross products and differ by at least 1/32767^2 |
| MatchOrdering.RoundingKeepsComparisons | app/infra/db/repositories/match_repository.py:94-119 | Any rounding with error below half of that keeps every comparison and every tie |
| MatchOrdering.RecommendedOrderIsExact | app/infra/db/repositories/match_repository.py:94-119 | The recommended order on rounded quotients is the order on exact fractions |
| MatchOrdering.UndatedComeLast | app/infra/db/repositories/match_repository.py:94-119 | In every order a match with a deadline comes before one without |
| MatchOrdering.DeadlineOrderMeans | app/infra/db/repositories/match_repository.py:94-119 | Then the deadline order is possible, fixable, others; nearest close; id |
| MatchOrdering.RecentOrderMeans | app/infra/db/repositories/match_repository.py:94-119 | The recent order is possible, fixable, others; latest posting, unknown last; id |
| MatchOrdering.RecommendedOrderMeans | app/infra/db/repositories/match_repository.py:94-119 | The recommended order is exact share satisfied, none last; more requirements; nearest close; id; whatever the verdicts |
| MatchOrdering.RecommendedOrderIsTotal | app/infra/db/repositories/match_repository.py:94-119 | It is a strict total order over distinct bids |
| MatchOrdering.DeadlineOrderIsTotal | app/infra/db/repositories/match_repository.py:94-119 | So is the deadline order |
| MatchOrdering.RecentOrderIsTotal | app/infra/db/repositories/match_repository.py:94-119 | So is the latest-first order |
| MatchOrdering.RecommendedPagesAreExact | app/infra/db/repositories/match_repository.py:71-119 | Every page of recommendations is the one the exact fractions determine |
| Recommendation.ExtractLicenseCodes | app/services/recommendation_scoring.py:88-104 | The loop collects the codes of all items |
| Recommendation.RequiredCodesAreThoseOfTheItems | app/services/recommendation_scoring.py:88-104 | A code is required if and only if some item gives it, in its code field or, without one, in its name |
| Recommendation.TotalInUnit | app/services/recommendation_scoring.py:107-236 | Every total lies between zero and one |
| Recommendation.CapabilityIsMonotone | app/services/recommendation_scoring.py:107-120 | More licences never lower the capability |
| Recommendation.EligibilityIsMonotone | app/services/recommendation_scoring.py:123-140 | More satisfied requirements never lower the eligibility |
| Recommendation.TotalIsMonotone | app/services/recommendation_scoring.py:189-236 | Neither lowers the total, nor does more interest |
| Recommendation.AxesWeighInOrder | app/services/recommendation_scoring.py:29-33 | Only a bid that is best on every axis scores one; interest outweighs eligibility, that capability, and that scale and freshness, which weigh alike |
| Recommendation.CapabilityIsTheShareHeld | app/services/recommendation_scoring.py:107-120 | Capability is one if and only if all required licences are held, zero if and only if none is, and one more adds its share |
| Recommendation.EligibilityMeans | app/services/recommendation_scoring.py:123-140 | Eligibility is one if and only if the verdict is possible and all is satisfied; each satisfied requirement adds its share of a half |
| Recommendation.BetterVerdictScoresHigher | app/services/recommendation_scoring.py:46 | All else equal, possible scores above fixable, and that above to be checked, which equals no verdict |
| Recommendation.ScaleMeans | app/services/recommendation_scoring.py:143-165 | Scale is one if and only if the budget is three tenths to twice the largest contract, zero if and only if ten times it or more, a half when nothing compares |
| Recommendation.RatioScoreFallsAwayFromTheRange | app/services/recommendation_scoring.py:155-164 | Away from that range it falls with the ratio at the stated slopes, below it to no less than 0.3 |
| Recommendation.FreshnessMeans | app/services/recommendation_scoring.py:168-186 | Freshness is one if and only if the close is more than two and at most fourteen days away, zero if and only if it is past, low up to two days, and falls by a sixtieth a day down to 0.4 |
| Recommendation.StrongerSourceScoresHigher | app/services/recommendation_scoring.py:37-42 | The same hit counts more from a scrap than a contract, then an item, then a licence or any other source, and more than none |
| Recommendation.BestInterest | app/services/recommendation_service.py:129-158 | The nested loops compute the fold over all hits in order |
| Recommendation.BestOfIsGreatest | app/services/recommendation_service.py:148-158 | The kept hit of a candidate is one of its hits with the greatest weighted score; none is kept if and only if it has none |
| Recommendation.FirstGreatestIsKept | app/services/recommendation_service.py:148-158 | Among hits of equal weight the first one stays |
| Recommendation.BestSignalMaximisesTotal | app/services/recommendation_service.py:148-158 | With scores of at most one the kept hit gives the maximum total over all hits |
| Recommendation.ExtraSignalNeverLowers | app/services/recommendation_service.py:148-158 | So an extra signal never lowers a bid |
| Recommendation.ExtraSignalLowersIffItDisplaces | app/services/recommendation_service.py:148-158 | For any scores an extra hit lowers its bid if and only if it outweighs the kept hit while its signal weighs less than that one's interest; its raw score is then above one |
| Recommendation.ScoresAboveOneCanLower | app/services/recommendation_service.py:155-157 | For instance a hit of 2.0 on a licence after one of 0.7 on a scrap |
| Recommendation.LastRowWins | app/services/recommendation_service.py:71-72 | Of several rows with one bid id the last one is used |
| Recommendation.IdsAreTheKeys | app/services/recommendation_service.py:71-72 | Every candidate id appears once and its data come from one of the rows |
| Recommendation.AboveIsTotal | app/services/recommendation_service.py:91-92 | The sort key is a strict total order over distinct bids |
| Recommendation.EveryCandidateIsRanked | app/services/recommendation_service.py:71-92 | Exactly the last row of every id is ranked, once |
| Recommendation.RankingIsByTotalThenId | app/services/recommendation_service.py:91-92 | Greatest total first, equal totals by id |
| Recommendation.TotalIsOfTheHeaviestHit | app/services/recommendation_service.py:78-91 | A ranked candidate's total is that of a heaviest hit of the first twelve signals on it, on its own row and the company's data; without a hit, that of no interest |
| Recommendation.CandidatesGetTheirGreatestTotal | app/services/recommendation_service.py:78-91 | With scores of at most one it is the greatest total over no hit and all hits on the bid |
| Recommendation.MoreInterestRanksHigher | app/services/recommendation_service.py:76-92 | Of two candidates with equal facts the more interesting one is never ranked below the other, but for equal rounded totals |
| Recommendation.Recommend | app/services/recommendation_service.py:55-127 | The items are the first `limit` of the deduplicated ranking (one for a limit below one): leaving the loop early loses nothing; counts and source of the response |
| Recommendation.FirstOfEachTitle | app/services/recommendation_service.py:94-119 | The loop with its early exit gives the first `limit` entries of the whole pass |
| Recommendation.PassKeepsTheBest | app/services/recommendation_service.py:94-104 | On a ranked list the pass keeps exactly the best candidate of every non-blank title, in rank order |
| Recommendation.KeptTitlesDiffer | app/services/recommendation_service.py:97-104 | No two kept candidates share a title that is not blank, up to normalisation |
| Recommendation.RankingKeepsTheBestOfEachTitle | app/services/recommendation_service.py:76-119 | In terms of the unsorted candidates: exactly the best of each title, ranked, all from the eligible rows |
| Recommendation.RecommendationCount | app/services/recommendation_service.py:94-127 | Their number is the smaller of the limit and distinct titles plus blank titles |
| InstitutionRollup.OutcomesExist | alembic/versions/0006_bid_stats_matviews.py:42-61 | Every set of institution names has an allowed outcome of DISTINCT ON |
| InstitutionRollup.ParentsAreTheMarkedCandidates | alembic/versions/0006_bid_stats_matviews.py:57-60 | Exactly those candidates are rolled up whose name beyond the parent's length ends in a sub-unit word and in no independent one |
| InstitutionRollup.KeyIgnoresSpace | alembic/versions/0006_bid_stats_matviews.py:44-46 | Spellings that differ in white space alone have one key |
| InstitutionRollup.ChildNamesAreUnique | alembic/versions/0006_bid_stats_matviews.py:49-56 | No name has two parents, although two spellings may share a key |
| InstitutionRollup.JoinKeepsEachRow | alembic/versions/0006_bid_stats_matviews.py:123-129 | The left join turns every row into exactly one row, with its resolved name |
| InstitutionRollup.LikeChains | alembic/versions/0006_bid_stats_matviews.py:52-54 | Matching by name patterns is transitive when no escape occurs and not both wildcards do |
| InstitutionRollup.ParentsAreNotChildren | alembic/versions/0006_bid_stats_matviews.py:42-61 | Under that condition no chosen parent has a parent of its own |
| InstitutionRollup.RollUpIsIdempotent | alembic/versions/0006_bid_stats_matviews.py:42-61 | So rolling up twice is rolling up once, for every allowed outcome |
| InstitutionRollup.HarmlessNamesTakeOneStep | alembic/versions/0006_bid_stats_matviews.py:42-61 | Under that condition no name can be two steps below another |
| InstitutionRollup.IdempotentIffNoTwoSteps | alembic/versions/0006_bid_stats_matviews.py:42-61 | For any names every allowed outcome is idempotent if and only if no name has a shortest sub-unit parent that itself has one |
| InstitutionRollup.TwoStepsResolveTwice | alembic/versions/0006_bid_stats_matviews.py:42-61 | Given such names an allowed outcome of all the names that resolves twice |
| InstitutionRollup.WildcardsBreakIdempotence | alembic/versions/0006_bid_stats_matviews.py:52-54 | Concrete names with both wildcards |
| InstitutionRollup.EscapesBreakIdempotence | alembic/versions/0006_bid_stats_matviews.py:52-54 | Concrete names with escape characters only |
| InstitutionRollup.PlainPatternsArePrefixes | alembic/versions/0006_bid_stats_matviews.py:52-54 | A name without metacharacters matches exactly the names it begins |
| InstitutionRollup.PlainParentsAreBeginnings | alembic/versions/0006_bid_stats_matviews.py:51-55 | Its parents are the names of at least four characters that it properly extends |
| InstitutionRollup.ExtensionsAreListed | alembic/versions/0006_bid_stats_matviews.py:48-56 | Every name that so extends another has a row, with a parent no longer than that one |
| InstitutionRollup.ParentKeyIsDetermined | alembic/versions/0006_bid_stats_matviews.py:48-56 | With such names the parent is determined up to white space |
| Grouping.TallyConserves | alembic/versions/0006_bid_stats_matviews.py:106-122 | Counts over distinct keys that cover the rows add up to the number of rows |
| Grouping.GroupByConserves | alembic/versions/0006_bid_stats_matviews.py:123-129 | Group counts add up to the number of rows |
| Grouping.GroupsAreExact | alembic/versions/0006_bid_stats_matviews.py:88-92 | Groups have distinct keys and the number of their rows |
| Grouping.CountIsTheNumberOfRows | alembic/versions/0006_bid_stats_matviews.py:99-100 | The count of a key is the number of rows that have it |
| StatsViews.TotalIsTheBidCount | alembic/versions/0006_bid_stats_matviews.py:79-105 | The total of a key is the number of bids of the category, or of all, each as often as the tag table gives it the tag with no source ending in `_low`, and once under `ALL` |
| StatsViews.AxisHas | alembic/versions/0006_bid_stats_matviews.py:79-87 | A bid is counted under a key if and only if it is in the category and has the tag |
| StatsViews.MonthlyListsThePeriod | alembic/versions/0006_bid_stats_matviews.py:72-112 | The period is the first to the last month with a bid, and every month of it is listed in order with its number of rows |
| StatsViews.MonthlySumsToTotal | alembic/versions/0006_bid_stats_matviews.py:70-111 | For every key the monthly counts list each month of the period once and add up to the total |
| StatsViews.BudgetSumsToTotalLessNoAmount | alembic/versions/0006_bid_stats_matviews.py:101-122 | The price buckets add up to the total less the rows of categories without amounts, and those only under `ALL` |
| StatsViews.BucketsAreExact | alembic/versions/0006_bid_stats_matviews.py:113-122 | The buckets are ascending, each with its number of rows, and every bracket that has a row is there |
| StatsViews.BracketIsByItsEdges | alembic/versions/0006_bid_stats_matviews.py:113-119 | A row is in the bracket whose edges enclose its price, the lower one included; without a price in the last |
| StatsViews.AmountsAreAvailableIff | alembic/versions/0006_bid_stats_matviews.py:101-104 | Amounts are unavailable if and only if the category has bids and none of them has a budget or a price above zero |
| StatsViews.OnlyAllLacksAmounts | alembic/versions/0006_bid_stats_matviews.py:101-121 | Only under `ALL` are rows without a bucket, those of such categories |
| StatsViews.AllIsTheSumOfCategories | alembic/versions/0006_bid_stats_matviews.py:79-105 | For every tag the total of `ALL` is the sum of the totals of the categories |
| StatsViews.InstitutionCountsItsRows | alembic/versions/0006_bid_stats_matviews.py:123-129 | The count of an institution is the number of rows whose institution resolves to it |
| StatsViews.TopInstitutionsAreTheLargest | alembic/versions/0006_bid_stats_matviews.py:123-133 | The shown institutions are at most eight, in order, each with its exact number of rows; any other institution of some row has fewer, or as many and a later name |
| StatsViews.InstitutionsConserveRows | alembic/versions/0006_bid_stats_matviews.py:123-137 | Institution counts, placeholder rows and rows without institution add up to the total for every key; the placeholder count is the rows of that very name |
| StatsViews.TagCountIsItsTotal | alembic/versions/0006_bid_stats_matviews.py:88-105 | The listed count of a tag is the total shown when the tag is applied |
| StatsViews.TopTagsAreTheMostFrequent | alembic/versions/0006_bid_stats_matviews.py:88-93 | The tag list is at most eight tags of the category in order, each with its total; any other tag of a bid of the category has a smaller total, or an equal one and a later name |
| StatsViews.TopTagsOccur | alembic/versions/0006_bid_stats_matviews.py:88-93 | Each of them is a real tag of some bid of the category, never `ALL` |
| StatsViews.ListedTags | alembic/versions/0006_bid_stats_matviews.py:90-95 | In terms of the tables: the listed tags are in order with their numbers of bids, and a tag of some bid of the category is left out only when eight others come before it |
| StatsViews.ListedInstitutions | alembic/versions/0006_bid_stats_matviews.py:123-133 | The same of the listed institutions, over the rows of the key |
| StatsViews.KeysAreUnique | alembic/versions/0006_bid_stats_matviews.py:94-98 | Every (category, tag) appears once, as the unique index requires, and exactly which keys there are |
| StatsViews.CategoriesOfTheAxis | alembic/versions/0006_bid_stats_matviews.py:79-98 | A category has statistics if and only if a bid of the period is in it; `ALL` if and only if there is any |
| StatsViews.FindInView | app/infra/db/repositories/stats_repository.py:19-44 | A lookup finds exactly the keys of the view, with their payload |
| StatsViews.GetStatsAnswers | app/services/stats_service.py:23-51 | The asked tag is applied if and only if it is in the tag list of the category, else the whole category answers; unavailable if and only if the category has no bid |
| StatsViews.AppliedTagIsListed | app/services/stats_service.py:31-51 | An applied tag is in the tag list of its response |
| Accounts.StepKeepsUnique | app/infra/db/repositories/company_repository.py:53-86 | In every interleaving no two rows, withdrawn or not, share a sub |
| Accounts.OneCompanyPerSub | app/infra/db/repositories/company_repository.py:53-86 | Sign-ins of one sub that return a company all return the same one, unless another sub takes the row over by its address |
| Accounts.OwnerCanChangeIffContested | app/infra/db/repositories/company_repository.py:64-69 | A row can change its owner next if and only if the unrefused link of another sub is waiting on it |
| Accounts.SharedAddressTakesOver | app/infra/db/repositories/company_repository.py:64-69 | From the empty table, for any two subs and any shared address, a run in which the second takes the company of the first over |
| Accounts.SharedAddressSplitsASub | app/infra/db/repositories/company_repository.py:64-86 | And one in which the first sub is then given a second company |
| Accounts.FirstSignInsConverge | app/infra/db/repositories/company_repository.py:53-86 | From any table, among any sign-ins of others and any withdrawals, all finished sign-ins of one sub return one company when nobody else has its verified address |
| Accounts.SignInsConvergeIffAddressIsOwn | app/infra/db/repositories/company_repository.py:53-86 | That is the exact condition: sign-ins of a sub agree in every run if and only if no other sub may come with its address |
| Accounts.WithdrawnRowCanChangeIffAimedAt | app/infra/db/repositories/company_repository.py:66-108 | A withdrawn row can change next if and only if an unrefused link or another withdrawal that found it before is still waiting on it |
| Accounts.WithdrawnRowEverChangesIff | app/infra/db/repositories/company_repository.py:66-108 | It changes in some continuation if and only if another withdrawal is waiting on it, or a link whose sub nobody has or only a row that can lose it first |
| Accounts.LooseRowsLoseTheirSub | app/infra/db/repositories/company_repository.py:64-69 | Every row that can lose its sub does so in some run that touches no other kind of row |
| Accounts.LockedRowsNeverChange | app/infra/db/repositories/company_repository.py:64-69 | And the rows outside never change, in any continuation |
| Accounts.WithdrawnRowsNeverChange | app/infra/db/repositories/company_repository.py:99-110 | A withdrawn row on which nothing of the kind is under way never changes, in any continuation |
| Accounts.WithdrawnSubStaysOut | app/infra/db/repositories/company_repository.py:88-97 | Then a withdrawn sub never again owns an active row and its sign-ins are rejected at the gate |
| Accounts.MarkIsLostIffLinked | app/infra/db/repositories/company_repository.py:66-68 | A sub loses its withdrawal mark if and only if such a link commits |
| Accounts.LinkRevivesAWithdrawnSub | app/infra/db/repositories/company_repository.py:64-68 | For any two subs and address a run in which the link of the second revives the withdrawn first: it owns an active row again, and the second counts as withdrawn |
| Accounts.SignedInOwns | app/infra/db/repositories/company_repository.py:53-86 | A sign-in by itself returns an active row of its sub, or fails because a withdrawn row has the sub |
| Accounts.UninterruptedSignIn | app/infra/db/repositories/company_repository.py:53-86 | The statements of one sign-in with nothing in between have exactly the effect stated for the repository method |
| Accounts.StatementsMoveOn | app/infra/db/repositories/company_repository.py:53-86 | Every statement moves its own sign-in on and no other, so that each ends after at most five |
| Accounts.FailsIff | app/infra/db/repositories/company_repository.py:73-84 | A sign-in whose insert is refused returns the row that won while it is active; it fails if and only if no active row has its sub then, or the unique index refuses its link |
| Accounts.LinkIsRefusedIffTaken | app/infra/db/repositories/company_repository.py:64-69 | A link to an active row of another owner fails if and only if some row has the sub |
| Accounts.CompanyRepository.GetByCognitoSub | app/infra/db/repositories/company_repository.py:41-45 | An active row of the sub if there is one |
| Accounts.CompanyRepository.GetByEmail | app/infra/db/repositories/company_repository.py:47-51 | An active row with the address if there is one |
| Accounts.CompanyRepository.IsWithdrawnSub | app/infra/db/repositories/company_repository.py:88-97 | Whether a withdrawn row has the sub |
| Accounts.CompanyRepository.SoftDelete | app/infra/db/repositories/company_repository.py:99-110 | Marks an active row and keeps its sub; else false |
| Accounts.CompanyRepository.GetOrCreate | app/infra/db/repositories/company_repository.py:53-86 | Finds, links, creates or fails, as decided by the rows before |
| Accounts.CompanyRepository.CurrentUser | app/api/deps.py:107-125 | A withdrawn sub is refused and nothing changes; any other gets an active row of its own |

## Left out

- MatchRefresh.RunsStayFresh: assumes that events commit at distinct increasing instants and that a
  cycle's span plus the normaliser's commit lag is at most a minute; bids change only through
  normalisation, and a rebuild sees the bids as of its commit. Companies newly created, saved and
  not rebuilt, not reached by a broken-off cycle, or next to another company's rebuild that opened
  a gap are stale until their own rebuild or full visit, and the promise leaves them out.
- MatchRefresh.ProfileSaveIsSafeIffNoGap: quantifies over the verdicts the table may hold, so
  "not safe" means that some fresh table with these stamps is left stale.
- Deployment.FirstRunsKeepInv: runs without reboots; what a reboot during a first run leaves is
  `RebootDuringAFirstRun`, for the commands before a rollback.
- Deployment.HistoriesKeepServing: rollback commands take effect; their failures are the subject
  of `RollbackServesIff`. Nginx reload is atomic: worker overlap is not modelled. A failed
  `nginx -t` inside the rollback counts as a failed restore of Nginx. Both slot configurations that a
  run installs over the live ones are valid, so that Nginx comes up with either after a reboot.
- ChatSessions.OneTurnInFlightAndCapped: session ids are canonical, so the mutex and the row have
  one key; each repository call is atomic; messages are ordered by insertion.
- ChatLimits.WindowsHoldAtMostLimit: time is a real number; calls out of clock order are the subject
  of `WindowsHoldIffInOrderOrOne`.
- ChatSessions.AgentGetsTheLastContext: the entry bid and company id that are also given to the agent
  are passed through and left out; the text of the capped reply too.
- EventSink.EveryEventInExactlyOnePlace: serialising a batch succeeds, and an upload takes effect
  whole or not at all.
- BidSearch.PagesShowEveryMatchOnce: a fixed snapshot with distinct bid ids; concurrent changes
  between two page requests are not modelled.
- LikePattern.ILikeMatchesFoldedOccurrences: case folding is an abstract function of single
  characters that keeps the metacharacters apart; full Unicode folding is not modelled.
- Recommendation.CandidatesGetTheirGreatestTotal: rounding is any monotone function, and scores are
  at most one; without that bound the heaviest hit counts (`TotalIsOfTheHeaviestHit`).
- Recommendation.TotalInUnit: exact reals; the rounding to six digits is a parameter of the ranking
  only, and floating-point error is not modelled.
- Recommendation.BestInterest: the vector search is a given list of hits for each signal.
- Recommendation.Recommend: the eligibility query gives the rows; title normalisation (strip and
  case folding) is an abstract function; the texts of the reasons are left out.
- Recommendation.ExtractLicenseCodes: the pattern that finds codes in a raw licence name is not
  modelled; each item carries the codes found.
- InstitutionRollup.RollUpIsIdempotent: its condition on names is sufficient; the exact one is that of
  `IdempotentIffNoTwoSteps`. White space is an abstract predicate.
- StatsViews.MonthlySumsToTotal: months are whole numbers, which agrees with the text order of
  `YYYY-MM` for years of four digits; the cut at the current month is the choice of `scope`.
- StatsViews.AllIsTheSumOfCategories: no bid has the category `ALL`.
- StatsViews.GetStatsAnswers: the view exists; a missing view, which the repository turns into "no
  row", answers as unavailable.
- StatsViews.AmountsAreAvailableIff: prices are not negative; the sum of the view is modelled for any.
- StatsViews.ListedTags: no bid has the category `ALL`.
- Accounts.FirstSignInsConverge: `cognito_sub` is unique over all rows, as the code expects of the
  table; the migration that creates the index is not part of the repository.
- Accounts.WithdrawnRowsNeverChange: its condition, that nothing is under way on the row, is simple
  and sufficient; the exact one is that of `WithdrawnRowEverChangesIff`.
- Accounts.OneCompanyPerSub: other unique constraints of the table are not modelled, so a refused
  insert always means that the sub is taken.
- StatsViews.TopTagsAreTheMostFrequent: names compare by code point; database collations are not
  modelled, here or in the ties by bid id.
- Connection loss after a commit whose outcome is unknown, and retries of the clients.
- `list_sessions` and `list_scraps` paging: the shape of the search pages, without their tie-break.
- `MasterRepository.search_items`: its pattern is not escaped, so the LIKE theorem does not apply.
- HTTP routing, DTOs, token verification, logging, metrics, configuration checks and plain CRUD.
- The body of `compute_match_results`, a database function outside the repository.
- `scripts/`: seeding and experiments.

# Verified model of the question service

The program answers questions about a body of articles. A person registers with a contact and gets a one-time
grant, exchanges the grant for a conversation with a quota of 100 answers, and asks questions in it. A question is
admitted or denied in one transaction, answered by a language model over retrieved passages, and closed in another
transaction; a maintenance job closes questions whose worker died. Answers can be streamed, with citation markers
filtered as the text arrives.

This project models those parts in Dafny and proves what they promise together.

## How it is organised

The question lifecycle

- `Tables`, `Transitions`: the rows, the queries over them, and each transaction as a function on the tables.
- `Threads`, `Invariants`, `Preservation`, `Evolution`: what every reachable state satisfies, that each transaction
  keeps it, and what no transaction takes back.
- `Admissions`, `Closings`: what each transaction decides and writes, said of the rows themselves: sets and sums of
  requests, fields before and after.
- `RagService`: the transactions as the service writes them, row by row, in a class; each follows those rules and is
  the transition the runs are made of.
- `Protocol`, `Runs`: admission split into micro-steps (row lock, advisory lock, one check at a time, commit) and
  interleaved with every other process; theorems over all runs.
- `RunBuilding`, `Budget`, `HourlyLimit`: runs that really happen, and from them exactly when the money budget
  holds and how many questions an hour lets in.
- `History`: the model's context and the paging of a conversation. `StartStamps`: what becomes of them when messages
  carry the start of their transaction.

Streaming

- `Citations`, `CitationStream`: the batch substitution, the incremental filter, and exactly when they agree.
- `EventStream`, `StreamService`: the events of a generation, their framing, and one streamed question end to end.

Retrieval

- `Ordering`, `GraphIndex`, `GraphQuery`, `Retriever`: the graph, its seeds and their expansion, and the fusion of
  the two result lists; `Retrieval` puts them together. `BoundedTraversal` is the prototype's search.

Issuance, limits and releases

- `LockOrder`: the explicit locks of all transactions, and why they cannot deadlock.
- `Issuance`, `IssuanceProtocol`, `RegistrationService`: registration and grant exchange, as transactions, as
  interleaved statements, and as a class.
- `RateBuckets`: the hourly limit with retention running beside it.
- `Chunking`, `Knowledge`, `Releases`: chunks, the embedding cache, and activation over whole runs.

## Conventions

- Random identifiers are row numbers; digests are injective; the set of whitespace characters, the set of digit
  characters and the embedding service are parameters.
- Every transaction carries its time. In a run of the question lifecycle the times strictly increase; in a run of
  registrations and exchanges they never decrease. The program stamps messages with the start of the transaction.
- Money is counted in units small enough that tokens times price is whole. Rank scores are exact.
- A transaction is atomic, holds its locks to its end, and reads what is committed. Where that is not enough to see
  that a check stays true until the commit, the transaction is split into micro-steps.

## Where a promise fails or needs a condition

- The streamed text can differ from the stored answer: a marker longer than 33 characters that names no supplied
  source passes the filter when a chunk boundary falls inside it. `StreamRefinesBatch` gives the exact condition.
- Sanitizing can uncover a marker that was not there: removing `[c99]` from `[c[c99]8]` leaves `[c8]`.
  `SanitizeExactness` gives the exact condition, `SanitizeFlatText` a simple sufficient one.
- The monthly money budget is not a bound by itself: a bill may exceed its reservation. `BudgetHoldsExactly` says
  that, whatever usage is reported, it holds in every run if and only if nothing can be admitted or tokens cost
  nothing; `SpendCap` bounds the excess by the overruns; `ReservationsSufficeExactly` says when a reservation is high
  enough for calls of a known size, and `BoundedUsageKeepsBudget` that the budget then holds.
- `related` can return more than its limit: one seed with one neighbour and a limit of one gives two nodes
  (`LimitExceeded`). `LimitKeptExactly` gives the exact condition. With the program's own limits, at most 6 seeds and
  24 nodes, it never happens.
- By the time its row is stamped, a clock hour can hold one accepted question of an address more than the limit: the
  address is counted before the row is stamped, and the hour may turn in between. `HoursKeepTheLimitExactly` says that
  every run keeps the limit if and only if the settings admit nothing; `HourHoldsAtMostOneMore` bounds the excess by
  one, `OneMoreHappens` reaches it under all other settings, and `TimelyHoursKeepTheLimit` gives the runs that keep it.
- Ordered by the start of their transactions, as the program stamps them, messages need not be whole exchanges:
  `ExchangesExactly` says they are if and only if no question's transaction starts before that of an earlier answer.
- A grant can be exchanged after its expiry, which is read when the grant is checked and not when the exchange
  commits. `ConsumedInTimeExactly` says that no run does so if and only if grants have no lifetime;
  `ConsumedGrantWasLive` that every consumed grant was checked while it was live, so it is late by less than its
  exchange takes; `CommitsAreAtomic` gives the difference for a single commit.

## Model

| member | source | states |
|---|---|---|
| Citations.MatchIsTheToken | app/rag/retrieval.py:213 | the greedy match at a position is the only prefix the marker pattern accepts in full, so search and full match agree |
| Citations.SanitizeSeam | app/rag/retrieval.py:210-216 | sanitizing two halves separately equals sanitizing the whole whenever no foreign marker straddles the seam |
| Citations.CitedAfterSanitizing | app/rag/retrieval.py:205-216 | the ids cited after sanitizing are exactly the supplied ids cited before, plus those uncovered by removing markers written inside others |
| Citations.StableExactlyWhenAllKnown | app/rag/retrieval.py:210-216 | sanitizing changes nothing if and only if every cited id is supplied, and never lengthens the text |
| Citations.SanitizeExactness | app/rag/retrieval.py:205-216 | supplied citations always survive; no unknown marker remains, and sanitizing twice is sanitizing once, if and only if nothing unknown is interrupted by a foreign marker |
| Citations.SanitizeFlatText | app/rag/retrieval.py:205-216 | without a bracket inside brackets sanitizing is idempotent and leaves exactly the supplied citations |
| Citations.NestingUncoversUnknown | app/rag/retrieval.py:210-216 | a concrete text whose sanitized form cites an unknown source |
| CitationStream.CitationStreamFilter.Feed | app/rag/retrieval.py:224-251 | after each chunk exactly the longest suffix is held that has at most 32 characters, opens with a bracket and closes none, and the sanitized form of everything before it is released; the loop terminates |
| CitationStream.CitationStreamFilter.Finish | app/rag/retrieval.py:253-256 | releases what was held and holds nothing |
| CitationStream.StreamAgrees | app/rag/retrieval.py:219-256 | for every split into chunks the released pieces concatenate to the batch result when every marker longer than 33 characters names a supplied source |
| CitationStream.LongTokenLeaks | app/rag/retrieval.py:236-242 | for every text with a foreign marker longer than 33 characters a split is given under which the stream releases more than the batch result |
| CitationStream.StreamRefinesBatch | app/rag/retrieval.py:210-256 | the stream equals the batch result for all splits of a text if and only if every marker of it longer than 33 characters names a supplied source |
| CitationStream.SuppliedCitationsSurvive | app/rag/retrieval.py:224-256 | whatever the text and the split, a supplied id of at most 31 characters cited in the answer is still cited in what the stream released |
| Tables.ByIdempotency | app/persistence/repositories.py:57-62 | the found row has the conversation and key; nothing found means no row has them |
| Tables.StaleRows | scripts/maintenance.py:30-36 | exactly the unlocked pending rows started before the cutoff, each once |
| Threads.PendingIsLast | app/persistence/repositories.py:41-50 | an open question is the last message of its conversation, after whole exchanges only |
| Threads.AnswerClosesExchange | app/rag/service.py:269-282 | completing the question and adding the answer turns the open question into one more question-answer pair |
| Threads.FailureReopensThread | app/rag/service.py:339-343 | failing the question restores the conversation as it was before it |
| Invariants.PendingOwnsThread | app/rag/service.py:263-272 | in a state satisfying the invariant a pending request has its conversation and its one pending user message, so the assertions of the closing transaction hold |
| Invariants.OnePending | app/rag/service.py:92-93 | two pending requests of one conversation are the same request |
| Invariants.OpenExactlyWhenPending | app/rag/service.py:140-149 | a conversation has an open question if and only if it has a pending request |
| Preservation.InsertKeeps | app/rag/service.py:115-161 | inserting a decided admission keeps the whole invariant, on whatever reads it was decided, provided the facts an admission needs hold at the commit |
| Preservation.NoDenialMeansMayAdmit | app/rag/service.py:89-114 | passing the whole denial chain establishes those facts: quota, no pending question, request count, reserved cost and minute rate |
| Preservation.AdmitKeeps | app/rag/service.py:63-161 | the first transaction of `ask` keeps the invariant, whether it replays, refuses, denies or admits |
| Preservation.FinishKeeps | app/rag/service.py:252-327 | the closing transaction keeps rows, messages, threads, charges, budget and rate in agreement |
| Preservation.FailKeeps | app/rag/service.py:329-353 | so does failing a request |
| Preservation.FailReleasesReservation | app/rag/service.py:333-338 | failing a request returns exactly its reservation and its place in the month's count |
| Preservation.RecoverRowIsFail | scripts/maintenance.py:37-58 | recovering a row, although it updates every message of the request, is failing it with code worker_lost |
| Preservation.RecoverKeeps | scripts/maintenance.py:25-59 | the recovery job keeps the invariant over any set of skipped rows |
| Evolution.InsertExtends | app/rag/service.py:115-161 | an insertion changes no identity, final row, response or finished exchange |
| Evolution.FinishExtends | app/rag/service.py:252-327 | a finish changes no final row or stored response and only appends to the finished exchanges |
| Evolution.FailExtends | app/rag/service.py:329-353 | a failure changes no final row, stored response or finished exchange |
| Evolution.RecoverRowsExtends | scripts/maintenance.py:37-58 | nor does a recovery sweep |
| Evolution.CountersShrink | app/persistence/repositories.py:71-100 | while no row is added, the month's count, its capped cost, the minute's count and the pending question can only go away |
| Evolution.OutcomeIsFinal | app/rag/service.py:68-87 | once a key's first attempt is over every later call repeats its outcome, and another question under the key conflicts |
| Evolution.FinishedIsReplayed | app/rag/service.py:80-82 | a retry receives exactly the answer the closing transaction returned |
| Admissions.MonthlyCountIsSize | app/persistence/repositories.py:71-79 | the month's count is the number of pending or completed requests started in it |
| Admissions.MonthlyCostIsSum | app/persistence/repositories.py:81-90 | the month's cost is the sum of what those requests reserved or were billed |
| Admissions.TokenCountIsSize | app/persistence/repositories.py:92-100 | the minute's count is the number of the conversation's requests since then, whatever became of them |
| Admissions.CheckIsGround | app/rag/service.py:90-114 | each check denies, with its code, exactly if its ground holds of the rows |
| Admissions.DenialIsFirstGround | app/rag/service.py:89-114 | the chain denies exactly if some ground holds, with the first that does, and looks at the hourly limit exactly if neither quota nor a pending question denies |
| Admissions.AdmitFollowsRule | app/rag/service.py:62-161 | for a fresh key a question is admitted if and only if no ground holds, and each denial occurs if and only if its ground is the first; a key used before is answered by its row; and exactly the stated rows are written |
| Admissions.PastDecidesNothing | app/persistence/repositories.py:71-100 | requests that are over and older than the month and the minute change no ground, however many there are |
| Closings.FinishFollowsRule | app/rag/service.py:252-327 | a finish writes, field by field, the charge, the bill, the answer with its quota, the response and the two messages, and nothing else; a request that cannot be closed is left alone |
| Closings.FinishReplacesReservation | app/rag/service.py:285-298 | closing a request leaves the month's count and changes its cost by minus the reservation if no model answered, by nothing if the usage is not known, and by the price of the tokens minus the reservation if it is |
| Closings.FailFollowsRule | app/rag/service.py:329-353 | a failure writes the row, its refusal and its question, and nothing else; a request that is not pending is left alone |
| Closings.RecoverFollowsRule | scripts/maintenance.py:25-59 | the recovery job fails exactly the pending, unlocked requests started before the cutoff, with their refusals and all their messages, and nothing else |
| RagService.Database.CheckIpLimit | app/core/rate_limit.py:16-21 | adds one hit to the given hour's counter and allows the request if and only if there were fewer than the limit; `RateBuckets.RetentionIsInvisible` adds the expiry and the deletion of counters |
| RagService.Database.Ask | app/rag/service.py:62-177 | each outcome occurs exactly under its condition on the rows: admission if and only if quota, no pending question, hour, month, cost and minute all leave room, each denial if it is the first that does not, a retry by its own row; exactly the stated rows are written, and the invariant is kept |
| RagService.Database.Decide | app/rag/service.py:89-114 | no denial if and only if no ground holds of the rows; otherwise the code of the first; the address is counted only when the chain gets that far |
| RagService.Database.FinishRequest | app/rag/service.py:252-327 | a closable request gets exactly the stated row, bill, response and messages and its answer is returned; without complete usage the bill is the reservation; a request no longer pending is reported interrupted and nothing changes |
| RagService.Database.FailRequest | app/rag/service.py:329-353 | a pending request is failed with its refusal and its question, any other is left alone, and nothing else changes |
| RagService.Database.RecoverPending | scripts/maintenance.py:25-59 | fails exactly the pending unlocked requests started before the cutoff, returns their number and changes nothing else |
| Protocol.LearnIsSound | app/rag/service.py:88-114 | each passed check is knowledge about the tables that the session may rely on |
| Protocol.StaleReadsSuffice | app/rag/service.py:88-138 | after all checks, read at different times, the session may still insert: the reads may be stale but only in the safe direction |
| Protocol.WaitingStays | app/rag/service.py:64-88 | another admission's commit does not disturb a session still waiting for the advisory lock |
| Protocol.CommitKeeps | app/rag/service.py:88-161 | committing an admission keeps the invariant and every other session's knowledge |
| Protocol.StepKeeps | app/rag/service.py:51-353 | every micro-step of admission, finish, failure and recovery, in any interleaving, keeps the invariant and every session's knowledge |
| Protocol.StepExtends | app/rag/service.py:51-353 | and takes no final row, stored response or finished exchange back |
| Runs.RunIsSafe | app/rag/service.py:51-353 | every state of every run satisfies the invariant |
| Runs.RunExtends | app/rag/service.py:236-353 | along a run identities, final statuses, responses and finished exchanges never change |
| Runs.StretchIsSafe | app/rag/service.py:51-353 | from any state that satisfies the invariant, steps of any sessions keep it and take nothing back |
| Runs.ExactlyOneWinner | app/rag/service.py:263-266 | of all racing finishes, failures and recoveries, exactly one step closes a request that is closed, and none one that is not |
| Runs.WinnerDecides | scripts/maintenance.py:30-58 | the step that closes a request fixes its status, error, charge and stored response; while no step closes it its row does not change and it has no response |
| Runs.RetryIsStable | app/rag/service.py:68-87 | at every later point of a run a retry of a finished key is told the same, other questions conflict, and no second row has the key |
| Runs.AnswerIsReplayedForever | app/rag/service.py:308-326 | the answer returned by a finish is what every later retry in the run receives |
| Runs.SpendCap | app/rag/service.py:102-109 | in every reachable state the month's accepted requests are within the request budget, with or without a money budget; with one, the reserved plus billed cost is within it plus what bills of the month overran their reservations, and within it if none did |
| Budget.BudgetHoldsExactly | app/rag/service.py:288-298 | for all settings with a money budget: it holds in every state of every run if and only if the settings admit no question or both token prices are zero |
| Budget.FittingBillsKeepBudget | app/rag/service.py:104-108 | a run in which no reported usage costs more than the reservation stays within the budget |
| Budget.ReservationsSufficeExactly | app/rag/service.py:288-297 | for calls within given token numbers every bill of every run is covered by its reservation if and only if nothing is admitted or the dearest such call costs at most the reservation |
| Budget.BoundedUsageKeepsBudget | app/rag/service.py:102-109 | with such calls and such a reservation every run stays within the budget |
| Budget.RunStaysShut | app/rag/service.py:94-114 | settings that fail any one check from the start never have a request that is not rejected |
| Budget.AdmitOne | app/rag/service.py:62-161 | all other settings have a run with an admitted question, through every micro-step of its admission |
| RunBuilding.AdmitAt | app/rag/service.py:62-161 | a session alone in the system whose checks pass admits its question, also when the hour changes between check and commit |
| HourlyLimit.OnlyCommitsCount | app/rag/service.py:94-101 | counters change only when an admission commits, by its own hit |
| HourlyLimit.StepKeepsHits | app/rag/service.py:88-101 | a limit check passed under the advisory lock stays true until its transaction commits, in any interleaving |
| HourlyLimit.HourAdmitsAtMostTheLimit | app/core/rate_limit.py:10-21 | in every run each address has at most the limit of accepted questions counted in one clock hour |
| HourlyLimit.AtMostOneLate | app/rag/service.py:88-129 | of the accepted questions stamped in an hour at most one was counted before it |
| HourlyLimit.HourHoldsAtMostOneMore | app/rag/service.py:94-129 | in every run at most one more than the limit of accepted questions of an address is stamped in one clock hour |
| HourlyLimit.OneMoreHappens | app/rag/service.py:94-129 | for all settings that admit anything, a run in which an hour holds exactly one more than the limit |
| HourlyLimit.HoursKeepTheLimitExactly | app/rag/service.py:94-129 | for all settings: every clock hour of every run holds at most the limit of accepted questions of each address, by row stamp, if and only if the settings admit nothing |
| HourlyLimit.TimelyHoursKeepTheLimit | app/rag/service.py:94-129 | a run in which no hour turns between a limit check and its commit keeps the limit in every hour |
| Runs.MinuteWindow | app/persistence/repositories.py:92-100 | any window of one minute, wherever it starts, holds at most the configured number of accepted questions of a conversation |
| Runs.RunRateLimit | app/rag/service.py:110-114 | the same in every state of every run |
| Runs.CompletedIsHistory | app/persistence/repositories.py:41-50 | the completed messages of a conversation are its finished exchanges, two per used unit of quota |
| Runs.QuotaAccounting | app/rag/service.py:283-316 | used plus pending is within the quota, used equals the charged requests, completed messages are twice used, the k-th answer reported used = k, and at most one request is pending |
| History.RecentIsWholeExchanges | app/persistence/repositories.py:41-50 | the context of a new answer is exactly the last three or fewer whole exchanges, never the current or a failed question |
| History.PageOf | app/persistence/repositories.py:150-168 | following a cursor always goes back in time, so the walk ends |
| History.PageIsNewest | app/persistence/repositories.py:150-168 | a page is the newest completed messages before the cursor, oldest first, as many as fit; there is a next cursor if and only if older ones are left, and it is the stamp of the oldest on the page |
| History.WalkVisitsEverythingOnce | app/persistence/repositories.py:150-168 | pages reversed and concatenated give every message completed when the walk began, once and in order, although each fetch sees a later state |
| History.RunGivesSnapshots | app/conversations/service.py:110-117 | fetches at any moments of a run, none before the first, meet the conditions of that walk |
| StartStamps.ExchangesExactly | app/persistence/models.py:131 | completed messages ordered by the start of their transactions are whole exchanges, question then answer, if and only if no question's transaction starts while the answer of an earlier question has yet to start |
| StartStamps.QuestionStartsInside | app/persistence/repositories.py:44-46 | an order of stamps in which two questions come first |
| EventStream.Validated | app/rag/retrieval.py:205-207 | exactly the supplied citations that occur in the answer, each as often as supplied and in the supplied order |
| EventStream.Generate | app/rag/service.py:185-235 | emits all citations, then the filtered text and, if the answer is not grounded, the fixed refusal; the answer is grounded if and only if, cleaned of unknown markers, it cites a supplied source, is then the cleaned text with exactly the sources it cites, and the refusal without sources otherwise |
| EventStream.StoredIsGrounded | app/rag/service.py:221-224 | the same for what is stored, whether the answer was streamed or not |
| EventStream.ClientSawWhatWasStored | app/rag/service.py:195-234 | however the answer is cut, the client received the stored answer if it is grounded and no over-long foreign marker occurs (if and only if), a text ending in it if it is not grounded, and exactly it without citations |
| EventStream.Frames | app/api/v1/routes.py:201-253 | the numbered frames are the retrieving frame, one per event (or the stored citations and answer for a replay) and, for an answered question, one complete frame at the end; heartbeats carry no number and a failure ends the stream |
| EventStream.StreamIsWellFormed | app/api/v1/routes.py:222-250 | ids are 1, 2, 3, ...; a complete frame occurs exactly when the question was answered, once and last |
| StreamService.EventsOfScript | app/api/v1/routes.py:231-250 | the frames carry exactly the events shown, in order |
| StreamService.ReplayShowsStored | app/api/v1/routes.py:243-248 | a replay shows the stored citations in order and then exactly the stored answer |
| StreamService.StreamMessage | app/api/v1/routes.py:201-262 | whatever steps other sessions take between admission and closing: a complete frame is sent if and only if the question is a replay, or was admitted, did not fail and is still open at the end; it is last, its answer is stored, is the one the model's text leads to and is what a retry replays; a failure fails the request; a question has no events of its own exactly if it is a replay, and then the frames carry the stored citations and answer; otherwise they carry its own events and a text that agrees with the stored answer |
| StreamService.OthersMayRest | app/api/v1/routes.py:201-220 | that other sessions do nothing is among the possibilities allowed there |
| Ordering.SortedIsUnique | app/rag/retrieval.py:93 | a set of scored ids has one enumeration in ranking order, so results do not depend on dictionary order |
| Ordering.SortIds | app/rag/retrieval.py:83 | the ascending enumeration of a set of ids |
| GraphIndex.Load | app/rag/retrieval.py:64-83 | accepts exactly the graphs with some node, no repeated id and no unknown reference; under each id stand, ascending, exactly the nodes a link joins to it from either end and the other members of its hyperedges |
| GraphIndex.AddGroup | app/rag/retrieval.py:81-82 | every member of a hyperedge gains exactly the other members |
| GraphIndex.AdjacencyIsSymmetric | app/rag/retrieval.py:70-83 | adjacency is symmetric, and a node neighbours itself only through a link to itself |
| GraphIndex.IndexIgnoresOrder | app/rag/retrieval.py:64-83 | the index does not change when nodes, links or hyperedges are permuted or repeated |
| GraphQuery.Seeds | app/rag/retrieval.py:85-93 | nodes that share a word with the query, by number of shared words and then id; a matching node is left out only if the limit is reached by better ones |
| GraphQuery.SeedsAreBest | app/rag/retrieval.py:93 | no matching node left out ranks before a seed |
| GraphQuery.AddAllFacts | app/rag/retrieval.py:97-101 | de-duplication keeps every element once |
| GraphQuery.Related | app/rag/retrieval.py:95-104 | above the number of seeds, the seeds and then their neighbours in order, none left out unless the limit is reached; otherwise the seeds and at most one neighbour |
| GraphQuery.ExpansionIsExpanded | app/rag/retrieval.py:95-104 | above the number of seeds: the seeds come first, then neighbours of seeds in order of seed and neighbour, each once, and a neighbour is left out only if the limit is reached by earlier ones |
| GraphQuery.LimitKeptExactly | app/rag/retrieval.py:95-104 | the result has at most `limit` nodes if and only if there are fewer seeds, or just as many and the first neighbour, if any, is a seed |
| GraphQuery.LimitExceeded | app/rag/retrieval.py:98-103 | a graph and a limit that is exceeded |
| GraphQuery.ExpansionIsNear | app/rag/retrieval.py:96-104 | every related node is a seed or a neighbour of one |
| Retriever.TopFiveIsUnique | app/rag/retrieval.py:163-184 | only one list of rows is each article's best allowed row, the best five of those, best first |
| Retriever.RankScoreIsReciprocal | app/rag/retrieval.py:156-160 | a row's score from a list is one over its place, counted from one, and nothing if it is not listed |
| Retriever.AnswersCiteBest | app/rag/retrieval.py:161-184 | the promise of `retrieve` said of the two lists, with scores as sums of reciprocal ranks and boost |
| Retriever.ScoreRows | app/rag/retrieval.py:156-160 | every listed row has the sum of its reciprocal ranks in the lists that hold it |
| Retriever.RankRows | app/rag/retrieval.py:161-168 | exactly the allowed rows, in ranking order with the graph boost, for any dictionary order |
| Retriever.PickFive | app/rag/retrieval.py:169-183 | the greedy pass finds the unique best list and numbers it c1, c2, ... |
| Retriever.Retrieve | app/rag/retrieval.py:153-184 | at most five allowed rows of different articles, numbered c1 to c5, with their scores, better ones first; an allowed row is missing only because a better row of its article or five better rows are there |
| Retriever.CitationsAreDetermined | app/rag/retrieval.py:153-184 | two citation lists that meet the promise of `retrieve` are equal, so neither dictionary nor sorting order shows |
| Retrieval.LoadedIsClosed | app/rag/retrieval.py:67-83 | in a loaded graph every neighbour is a node, so looking it up cannot fail |
| Retrieval.RetrieveFor | app/rag/retrieval.py:112-184 | nothing without search terms; otherwise at most 6 best-matching seeds, expanded to at most 24 nodes with no neighbour left out but for that limit, and a row scores half a point more if and only if its URL is the source of one of them |
| Retrieval.GraphOrderIsInvisible | app/rag/retrieval.py:64-184 | permuting nodes, links or hyperedges of the graph file changes no citation |
| BoundedTraversal.Traverse | src/data/kg/graph_rag.py:76-101 | the search ends; everything visited is within `depth` hops of the seeds; a ball of at most `max_nodes` nodes is visited exactly, otherwise the seeds or exactly `max_nodes` nodes are; the edges collected are exactly those from the explored nodes to known nodes, everything visited beyond the seeds is the end of one, and unless the limit stopped it exactly the nodes within `depth - 1` hops were explored |
| BoundedTraversal.BallIsReach | src/data/kg/graph_rag.py:83-101 | a node is within so many hops if and only if a path of so many edges over known nodes leads to it from a seed |
| BoundedTraversal.Expand | src/data/kg/graph_rag.py:88-101 | one node's neighbours, in any order, are all found unless the limit stops the search |
| BoundedTraversal.ExhaustedFindsBall | src/data/kg/graph_rag.py:83-101 | with nothing left in the queue every node within `depth` hops has been visited at its depth |
| LockOrder.SortedDigestsGiveAscendingKeys | app/persistence/repositories.py:107-111 | digests in sorted order have advisory keys that never decrease |
| LockOrder.KeyIsSixtyBits | app/persistence/repositories.py:110 | every key fits the signed 64-bit argument of the lock function |
| LockOrder.EveryTransactionIsDisciplined | app/rag/service.py:64-100 | each waiting transaction asks for its locks in one global order, contact keys included even when they collide with the fixed keys |
| LockOrder.StepKeeps | app/conversations/service.py:45-56 | locks stay exclusive and every session holds only what it has asked for |
| LockOrder.WaitingClimbs | app/rag/service.py:263-267 | whoever a session waits for waits, if at all, for a later lock |
| LockOrder.NoCyclicWait | app/rag/service.py:64-100 | no sessions of any transactions wait for each other in a circle |
| LockOrder.SomeoneCanMove | scripts/maintenance.py:31-35 | while a transaction is unfinished some transaction can step without waiting; recovery never waits |
| LockOrder.EveryRunFinishes | app/clients/service.py:42-81 | runs without new transactions are bounded, and where nobody can take, pass over or release a lock any more every transaction has ended, so none has to be cut off because it waits |
| Issuance.GrantByHash | app/persistence/repositories.py:134-139 | the grant with the digest, or none if there is none |
| Issuance.RegisteredKeeps | app/clients/service.py:43-81 | adding a client only when no contact matched, and a grant, keeps contacts unique per client |
| Issuance.ExchangedKeeps | app/conversations/service.py:57-77 | consuming a grant of a client without a conversation keeps one conversation and one consumed grant per client, always together |
| Issuance.IssuedForGood | app/conversations/service.py:57-63 | a conversation stays its client's only one, and no other grant of that client is ever consumed |
| Issuance.RecordedContactFindsItsClient | app/persistence/repositories.py:113-119 | contacts recorded for a client, an email, a phone or both, find that client and no other |
| Issuance.AtMostTwoMatch | app/persistence/repositories.py:116-119 | an email and a phone match at most two clients between them |
| RegistrationService.RegistryDatabase.ByContactHash | app/persistence/repositories.py:113-119 | some client with one of the contacts, and none only when no client has any |
| RegistrationService.RegistryDatabase.Register | app/clients/service.py:42-84 | a client with exactly these contacts is added if and only if nobody has any of them; one new unconsumed grant goes to it or to one that has one of the contacts; nothing else changes |
| RegistrationService.RegistryDatabase.Create | app/conversations/service.py:43-83 | each refusal occurs exactly under its condition on grant, id, expiry and conversations, and changes nothing; otherwise the grant is consumed and one conversation with the full quota of 100 is issued |
| IssuanceProtocol.HeldInGlobalOrder | app/conversations/service.py:45-56 | at every point a session holds exactly the first few locks of its transaction in the global order |
| IssuanceProtocol.SharedContactExcludes | app/clients/service.py:42-43 | two registrations that could find each other's client cannot both be past the contact locks |
| IssuanceProtocol.RegisterLeavesOthers | app/clients/service.py:42-81 | a committing registration leaves every other session's reads true |
| IssuanceProtocol.ExchangeLeavesOthers | app/conversations/service.py:45-77 | so does a committing exchange |
| IssuanceProtocol.StepKeeps | app/conversations/service.py:43-77 | every statement of every interleaving keeps the rows in order, the reads true and the locks exclusive, also when a transaction is cut off |
| IssuanceProtocol.NothingTwice | app/clients/service.py:42-60 | in every reachable state no two clients share an email or phone digest, no client has two conversations and none two consumed grants |
| IssuanceProtocol.OneExchangeWins | app/conversations/service.py:56-77 | of all exchanges of one client's grants, concurrent or not, at most one is answered with a conversation |
| IssuanceProtocol.RefusedGrantIsNeverConsumed | app/conversations/service.py:58-63 | a grant refused because the client has a conversation is unconsumed then and for ever |
| IssuanceProtocol.CommitsAreAtomic | app/conversations/service.py:46-77 | rows change only at commits; a registration writes what it would write alone at that moment; an exchange writes what `create` writes for its grant, which passed its checks earlier and would pass them again, run alone, if and only if it has not expired since |
| IssuanceProtocol.ExpiredGrantExchanged | app/conversations/service.py:53-77 | for every positive lifetime a run, in clock order, in which a grant is consumed at its expiry |
| IssuanceProtocol.ConsumedInTimeExactly | app/conversations/service.py:46-77 | for all lifetimes: in every run every consumed grant was consumed before its expiry if and only if the lifetime of grants is zero |
| IssuanceProtocol.ConsumedGrantWasLive | app/conversations/service.py:46-55 | every consumed grant of every run was checked by an earlier step within its lifetime |
| RateBuckets.RateLimiter.CheckIpLimit | app/core/rate_limit.py:13-21 | counts the request in its clock hour, keeps a stored expiry, and allows it if and only if the count is within the limit |
| RateBuckets.RateLimiter.Retention | scripts/maintenance.py:97-109 | a dry run deletes nothing; otherwise exactly the expired counters go, at least as many as were counted |
| RateBuckets.LiveCounterIsExact | scripts/maintenance.py:109 | until two hours after its hour began a counter is the number of requests of that hour, so retention never resets a live one |
| RateBuckets.HourAdmitsExactlyTheFirst | app/core/rate_limit.py:10-21 | each clock hour admits exactly the first `limit` requests of a kind from an address, whatever retention does in between |
| RateBuckets.ExpiredCounterIsGone | scripts/maintenance.py:109 | a sweep after the expiry removes the counter for good |
| RateBuckets.RetentionIsInvisible | app/core/rate_limit.py:13-21 | the next request is decided by the stored counters, with expiry and deletion in any interleaving, exactly as by the plain counters of the question lifecycle |
| Chunking.JoinRoundTrip | scripts/knowledge.py:155-157 | splitting a joined text gives back its words |
| Chunking.WordsSplit | scripts/knowledge.py:155 | the words of any text are its stretches without whitespace, in order and none left out |
| Chunking.OneWordExactly | scripts/knowledge.py:155 | two characters are in one word if and only if there is no whitespace from the one to the other |
| Chunking.WordsKeepCharacters | scripts/knowledge.py:155 | the words put together are the text without its whitespace |
| Chunking.SlicesPartitionTheWords | scripts/knowledge.py:156-157 | the slices hold every word once and in order, each 1 to 180 words and all but the last 180 |
| Knowledge.ChunksReadBackTheArticle | scripts/knowledge.py:154-171 | the words of an article's chunks put together are the article's words |
| Knowledge.CacheIsFresh | scripts/knowledge.py:143-152 | a cached vector is the one the service would give for that text |
| Knowledge.CacheIsStored | scripts/knowledge.py:143-152 | the cache has a vector for an article's text if and only if some stored chunk of that article and text has one, and then one of theirs |
| Knowledge.ReleasePiecesAre | scripts/knowledge.py:154-171 | the pieces of a release are exactly the runs of up to 180 words of its articles, each with its article's id, title and URL, its place and its digest |
| Knowledge.Prepare | scripts/knowledge.py:153-171 | exactly those pieces, in order, each with its cached vector if there is one |
| Knowledge.EmbedChanged | scripts/knowledge.py:172-181 | the batches give every chunk without a vector the one of its own text and leave the others alone |
| Releases.KnowledgeBase.PrepareIngest | scripts/knowledge.py:139-183 | prepares nothing exactly when the release exists or production lacks the service; otherwise exactly the pieces of its articles, each with a stored vector of the same article and text if there is one and else the service's, if it is configured |
| Releases.KnowledgeBase.CommitIngest | scripts/knowledge.py:184-193 | adds the release, inactive, with its chunks; a release already there is left alone |
| Releases.KnowledgeBase.Activate | scripts/knowledge.py:204-231 | each refusal occurs exactly under its condition on the stored chunks and changes nothing; success makes that release active and every other inactive |
| Releases.CachingIsInvisible | scripts/knowledge.py:143-181 | preparing from the cache gives the same vectors as preparing from none |
| Releases.InsertKeeps | scripts/knowledge.py:184-193 | inserting a release prepared on an older state keeps every release's chunks and the active one |
| Releases.SwitchKeeps | scripts/knowledge.py:210-231 | activation keeps the store in order and one release active |
| Releases.StepKeeps | scripts/knowledge.py:134-231 | any interleaving of preparations, writes and activations keeps the store in order and every ingested release as it was |
| Releases.ExactlyOneActive | scripts/knowledge.py:226-231 | once a release has been active, exactly one is at every later time: ingested, not empty and, in production, fully embedded |
| Releases.EveryVectorIsFresh | scripts/knowledge.py:143-181 | in every run every stored vector is the service's for its text, and with the service configured every chunk has one |
| Releases.ReleaseReadsBack | scripts/knowledge.py:153-193 | the stored chunks of a release hold every character of its articles that is not whitespace, once and in order, and spell their words; concurrent ingests of one version add nothing twice |
| Releases.NoChunksExactlyWithoutWords | scripts/knowledge.py:213-216 | an ingested release is refused as empty exactly when its articles have no word |

## Left out

- HTTP, authentication by token, providers, metrics, prompts, configuration checks and the language model: the
  gateway is an arbitrary list of chunks, or a failure after some events.
- SQL ranking, full-text search and vector distance: the two result lists are arbitrary, each row once per list and
  one row per id.
- Columns nothing decides on: addresses and modes of a request, latency, knowledge version, client names and consent,
  registration events. The snippet of a citation is represented by its row.
- PostgreSQL itself: transactions are atomic, locks last to the end of the transaction, unique columns are enforced.
  Implicit foreign-key locks are not modelled, nor are row locks taken by plain updates and deletes.
- Clock skew. Transactions are stamped with their commit; `StartStamps` alone looks at the stamps of their starts, as
  a given order of messages.
- Runs.SpendCap: settings stay constant over a run, prices and the reservation are not negative, and token counts
  reported by the provider are natural numbers, because a negative count has no meaning as a bill.
- Retention of clients, with its cascade over conversations and requests; only expired counters are deleted here.
- Floating-point rounding: costs are whole and rank scores exact.
- GraphQuery.Seeds: normalisation and word splitting of labels and queries are not modelled; the word sets are given.
- Retrieval.RetrieveFor: how the question is split into search terms, stop words and graph words is not modelled.
- BoundedTraversal.Traverse: the graph file and the collection of hyperedges after the search are not modelled.
- Knowledge.EmbedChanged: chunks are values in a sequence and are replaced by position; the program updates shared
  objects in place.
- Releases.EveryVectorIsFresh: the embedding service stays the same over the run; a change of its model would leave
  old vectors in the cache.
- Issuance.RecordedContactFindsItsClient: says nothing about a second contact given later, which the program does not
  record for the client it finds.
- RagService.Database.CheckIpLimit: the hour is given with the time, and counters do not expire; `RateBuckets` models
  both and proves that they do not show.
- Staging and validation of release files, feedback, the command-line scripts, migrations and deployment files.

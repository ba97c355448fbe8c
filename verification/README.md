# Verified model of the ethereum-fetcher service

ethereum-fetcher answers requests for Ethereum transactions. It looks the requested hashes up in
PostgreSQL, fetches the missing ones from an Ethereum node through a pool of workers behind a rate
limiter, stores what it fetched, and links the transactions to the user who asked. This project models
that path in Dafny and proves properties of it for every input, every run and every interleaving. It
also covers two algorithmic pieces: the search for the migrations directory, and the plan caches and
in-memory relations of the database models. `dafny verify dfyconfig.toml` checks everything.

## Modules

- `Prelude`, `Chain`: optional values, sums over sequences; the node and the record made of its answers.
- `FetchJoin`, `FetchRuns`: one fetch, that is two goroutines, a WaitGroup, an error channel of capacity two,
  its closer; how a whole fetch ends.
- `RateLimiter`: the credit bucket as a class, its timed runs, and its exact rate bound.
- `Pool`: requests, dispatcher, workers, result channels, contexts and limiter as one transition system for
  any pool size W, any number of requests and any lists of missing hashes.
- `PoolSafety`, `PoolPanics`, `PoolProgress`, `PoolRuns`, `PoolTightness`, `PoolRate`: the inductive invariant
  and the safety theorems; exactly when a call dereferences a missing transaction; the measure, deadlock
  freedom and draining; whole runs; the exact condition for a permanent block; the rate of node calls.
- `PoolErrors`, `PoolShutdown`, `PoolStarvation`: where the errors of calls come from; how a cancelled call
  ends on its own; what is left of the pool when the application has ended; exactly when a worker can be left
  polling the limiter for ever.
- `Store`, `Sessions`: the tables, the database operations with their nesting counter, atomicity and
  idempotence; what overlapping sessions on one store commit.
- `Service`: the service call as a method against its specification function `Call`.
- `ReadThrough`, `Repeats`, `UserLists`: the store as a read-through cache of the chain; exactly when a call
  meets no obstacle; what calls add to the lists of the users.
- `Shared`, `SharedLinks`, `SharedCalls`: the pool beside one database that all its calls write to; where
  every link comes from; which calls are answered and which refused.
- `Replay`, `EndToEnd`: the phases a run of the pool records for a call agree with what the call computes on
  the tables its stores met; pool, progress and shared database together.
- `Paths`: splitting, cleaning and joining paths, the longest overlap, its removal in place.
- `PlanCache`, `PlanRuns`: cache keys and what they distinguish; concurrent use of the caches.
- `EagerLoad`: loading, adding and removing the users of transactions on heap objects.

## What the model assumes

- A node call may succeed or fail each time, but a successful one answers for the hash it was asked, and
  it returns a non-nil result. `ReadThrough.Faithful` says that the record of any text is the record of
  that record's own hash and that this hash is lower case.
- All calls use one database. In `Shared` a store of one record is one step: no two requests are between
  `BeginTx` and `CommitTx` at the same time. What the code does when they are is the subject of `Sessions`.
- Ticks of the limiter are at least `wait` apart where a rate is claimed.
- The environment (failing statements, failing node calls, cancellations, scheduling) is a parameter or a
  step that may happen at any time.
- `PoolProgress` and `PoolRuns` state liveness with the application context live. Refills stop when it ends,
  and fetch loops do not look at their context (`internal/network/node.go:118-131`); what then remains is the
  subject of `PoolShutdown` and `PoolStarvation`.

## Findings

- The service does not tell a closed result channel from a value (`internal/app/service.go:97-101`). Every
  call that misses a hash can reach the nil dereference that follows, beside any other calls, and no other
  call can (`PoolPanics.NilDereferenceIff`); it takes a cancellation of the application or of that very
  request (`PoolPanics.NilDereferenceNeedsCancel`).
- Calls schedule all their missing hashes before they receive any, so they can block each other for ever.
  Let the slack be the sum of |missing| - 1 over the calls that miss anything. With W workers a permanent
  block is reachable exactly when the slack exceeds W, or equals W while some call misses exactly one hash
  (`PoolTightness.BoundIsExact`). One call alone is safe up to W + 1 missing hashes, so with W = 20 a single
  request of the query endpoint's 20 hashes is (`internal/server/handlers.go:38`). Two such requests at a
  time can block each other, and one of the other endpoint, whose 3000 hexadecimal characters hold up to 22
  hashes (`internal/server/handlers.go:42`), can block alone (`PoolTightness.UsualLoads`). Calls of one
  missing hash each never block, however many there are (`PoolTightness.SingleHashesFit`).
- When the application ends, calls, dispatcher and refills end, but a fetch that finds the bucket empty polls
  it for ever and keeps its worker (`PoolShutdown.ShutdownRests`, `PoolShutdown.DryPollNeverEnds`). That can
  happen exactly when twice the number of missing hashes exceeds the bucket's capacity
  (`PoolStarvation.StarvesIff`): with the default limit of 10 six hashes are enough.
- A limiter of max calls per interval lets up to 2 * max + 1 calls through in one closed interval
  (`RateLimiter.BoundIsAttained`), where the setting is documented as a limit per second, 10 by default
  (`README.md:18-19` of the repository).
- Requested texts that are not the hash of their own record are fetched, and left out of an answered call's
  list without an error (`ReadThrough.AnswersAllIffCanonical`, `Repeats.OtherTextIsDropped`).
- A user's request is refused by the primary key of `user_transactions` when a fetched record is linked to
  the user already: because a missing hash is repeated, because two texts name one record, or because the
  record of a text that is not its own hash was linked before (`Repeats.HealthyCallAnswersIff`,
  `Repeats.OtherTextIsRefused`). Beside other calls there is one more cause: another call of the same user
  has linked the record since the lookup (`SharedCalls.AnsweredIffUnlinked`). Of the calls of one user that
  miss the same record at most one is answered (`SharedCalls.AtMostOneAnswered`), and of two simultaneous
  identical requests for one new hash exactly one is (`SharedCalls.TwinsSplit`). Calls of other users never
  interfere (`SharedCalls.PrivateAnsweredIff`).
- All requests share one transaction counter. When they store at the same time, a session's rows are
  committed exactly when no other session is open at its end (`Sessions.CommittedIffAlone`). The rows of the
  others are lost, although `InsertTransactions` reports success for them, and their transactions stay open
  (`Store.PgStore.InsertElement`, `Store.PgStore.InsertTransactions`).
- A nested `BeginTx` on the pooled executor opens a second transaction that nothing ends
  (`Store.NoLeakIffFlat`), and what is written through it is never committed (`Store.OuterLevelCommits`).
- A checkout below a directory named like a component of the migrations path does not find its
  migrations (`Paths.ProjectRootIff`, `Paths.LeadsToMigrationsIff`), and `joinPath` turns the split root into `/.`
  (`Paths.JoinUndoesSplit`).
- Upsert options are no part of the plan key (`PlanRuns.OptionsMislead`). The repository passes none.

## Model

| member | source | states |
|---|---|---|
| `FetchJoin.StepKeepsInv` | internal/network/node.go:44-64 | every step of every interleaving of the two fetchers, the closer and the reader keeps: no send on or second close of the error channel, the WaitGroup counts the goroutines that are left, no reported error is lost or invented, and a fetcher that ended without an error has set its answer |
| `FetchJoin.SendNeverBlocks` | internal/network/node.go:123-126 | a fetcher with an error to report finds the error channel open with a free slot |
| `FetchJoin.EvaluateIsSafe` | internal/network/node.go:66-110 | the code behind the error checks runs only with both answers set, even when an error was dropped on cancellation; it makes a record iff nothing was cancelled or reported and the sender was recovered, and every field of the record is the one the node's two answers give |
| `FetchJoin.OutcomeForgetsOrder` | internal/network/node.go:71-77 | without cancellation two joins whose calls returned the same end the same, in whatever order errors arrived |
| `FetchRuns.FetchOutcome` | internal/network/node.go:66-155 | in every interleaving without cancellation the two calls' own results decide the end: a record of both answers, or an error naming each failed call with its reason, details first |
| `FetchRuns.SortedAscends` | internal/network/node.go:71-77 | sorting the errors keeps each of them and puts them in ascending order |
| `FetchRuns.LateErrorIsKeptOrLost` | internal/network/node.go:119-128 | after a cancellation a fetch can end with the failed call's error on its list, and can end without it |
| `Chain.RecordDescribes` | internal/network/node.go:79-110 | a hash has a record iff the sender of its transaction can be recovered, and then status, block, logs, hash, value, sender, input, recipient and contract are those of the answer that knows them, zero addresses becoming null |
| `FetchJoin.StepShrinksWork` | internal/network/node.go:58-64 | every step of a fetch lowers its remaining work, so the range over the error channel ends |
| `FetchJoin.CanMove` | internal/network/node.go:113-155 | an unfinished join always has a next step when node calls return |
| `RateLimiter.Limiter.constructor` | internal/network/ratelimiter.go:18-49 | a limiter for a positive limit has exactly this capacity and waits interval / limit between refills, any other is one for 10; it starts full |
| `RateLimiter.Limiter.Allow` | internal/network/ratelimiter.go:52-62 | a call is allowed iff a credit is there and the done context is not chosen instead; it takes exactly one credit |
| `RateLimiter.AskIff` | internal/network/ratelimiter.go:52-62 | an ask can be allowed iff there is a credit, also after cancellation, and can be refused iff there is none or the context has ended |
| `RateLimiter.Limiter.Tick` | internal/network/ratelimiter.go:37-45 | a tick adds at most one credit, never beyond the capacity, and stops the refill loop only after cancellation |
| `RateLimiter.TickIff` | internal/network/ratelimiter.go:37-45 | a tick can add a credit iff there is room, can end the loop iff the context has ended, and can do nothing iff the bucket is full and the context live |
| `RateLimiter.RunConserves` | internal/network/ratelimiter.go:29-62 | in every run credits + grants = capacity + effective refills with 0 <= credits <= capacity, and refills never outnumber ticks |
| `RateLimiter.WindowBound` | internal/network/ratelimiter.go:34-62 | with ticks at least wait apart, any window of length T in any run holds at most max + T / wait + 1 grants |
| `RateLimiter.UseLimiter` | internal/network/ratelimiter.go:18-62 | a limiter built for n calls per interval and used through its methods lets at most n + span / (interval / n) + 1 calls through in any span of time |
| `RateLimiter.BoundIsAttained` | internal/network/ratelimiter.go:28-46 | for every positive max and every wait and k a run reaches max + k + 1 grants within k * wait, so the bound cannot be lowered |
| `PoolSafety.StepKeepsInv` | internal/network/setup.go:45-93 | every step of service calls, contexts, dispatcher, workers, fetchers and limiter keeps the invariant of the pool |
| `PoolSafety.RunKeepsInv` | internal/network/setup.go:45-93 | the invariant holds after every run |
| `PoolSafety.ChannelOwnership` | internal/network/node.go:157-174 | in every reachable state a result channel was closed at most once, carried at most one message, saw no send after its close, and if closed empty its task context was done; a finished task's channel is closed |
| `PoolSafety.DeliveryMatchesRequest` | internal/network/setup.go:75-88 | what a channel delivered has a transaction and answers the hash of its own task; without an error it is the chain record, field by field what the node said of this hash |
| `PoolSafety.PermitConservation` | internal/network/setup.go:65-89 | permits taken = live workers <= W in every reachable state, returning a permit never blocks, both fetch goroutines are gone before a worker leaves its fetch, and at most 2W node calls are in progress |
| `PoolSafety.CancellationIsReal` | internal/app/service.go:123-140 | a running call sees its merged context done or a closed channel, or ends as cancelled, withdrawn or with a nil dereference, only if the application or its own request was cancelled |
| `PoolShutdown.CancellationArrives` | internal/app/service.go:82-140 | once the application or its request is cancelled, a call can by its own steps alone withdraw iff it has hashes to schedule, and end as cancelled iff all are scheduled and one is still to be received |
| `PoolShutdown.AnswerOrCancel` | internal/app/service.go:95-110 | a cancelled call that is offered its last record can be answered and can be cancelled, as the select may choose either ready case |
| `PoolShutdown.ReceivedIsSafe` | internal/app/service.go:95-120 | a call that has received everything is not interrupted by any later cancellation, in any run |
| `PoolShutdown.ShutdownRests` | internal/network/setup.go:45-93 | when the application has ended and nothing moves, all calls have returned, dispatcher and refills have ended, and every task is finished or was never handed over, but for fetches that poll an empty bucket |
| `PoolShutdown.DryPollNeverEnds` | internal/network/node.go:118-133 | a goroutine that polls an empty bucket without refills does so in every run from there |
| `PoolErrors.ErrorsAreGenuine` | internal/network/setup.go:53-88 | the error of a call that failed to fetch begins by naming the failed node call or the unknown sender, or is one of the two texts about cancellation, and then the application or this very request was cancelled |
| `PoolStarvation.StarvesIff` | internal/network/node.go:118-155 | an end of the application can leave a worker polling for ever iff there is a worker and two calls per missing hash exceed the bucket's capacity |
| `PoolSafety.SuccessIsComplete` | internal/app/service.go:95-111 | a call that ended with success received for each missing hash exactly one message, its chain record |
| `PoolSafety.CreditsConserved` | internal/network/node.go:118-131 | every node call of a run took its own credit, and credits are conserved across all workers |
| `PoolPanics.NilDereferenceIff` | internal/app/service.go:97-101 | beside any other calls, some run leads call r to the dereference of a missing transaction iff it misses a hash |
| `PoolPanics.NilDereferenceNeedsCancel` | internal/app/service.go:97-101 | no run without a cancellation of the application or of call r does |
| `PoolProgress.StepShrinks` | internal/network/setup.go:45-93 | every step, cancelled or not, lowers remaining work, then missing credit |
| `PoolProgress.RunsAreBounded` | internal/network/setup.go:45-93 | no run is longer than the measure of its first state |
| `PoolProgress.DeadlockFreedom` | internal/app/service.go:82-111 | with the application live and calls that fit the pool (slack below W, or W without an unreturned one-hash call) some useful step is possible until all calls have returned |
| `PoolProgress.PoolDrains` | internal/network/setup.go:50-89 | once every call has returned, for whatever reason, the pool moves on until no permit is in use and every accepted task is finished |
| `PoolRuns.EveryCallReturns` | internal/app/service.go:79-111 | with calls that fit the pool every run is bounded and one that cannot go on has all calls returned and the pool drained, also with requests cancelled at any point |
| `PoolRuns.CalmOutcome` | internal/app/service.go:95-120 | without cancellation or failing node calls a call that has returned succeeded or met a refusing store, whatever the stores of other calls did |
| `PoolRuns.CalmCallSucceeds` | internal/app/service.go:95-120 | and if its own store refused nothing, it succeeded with every hash delivered once with its chain record |
| `PoolRuns.UndisturbedRunsSucceed` | internal/app/service.go:82-120 | without cancellation or any failure, runs of calls that fit the pool end with every call successful and the pool drained |
| `PoolTightness.BlocksBeyondBound` | internal/app/service.go:82-92 | any calls that do not fit the pool can block it for ever with nothing cancelled |
| `PoolTightness.BoundIsExact` | internal/network/setup.go:16-68 | for any calls and any W a permanent block is reachable iff the sum of missing hashes before each call's last exceeds W, or equals W and some call misses exactly one |
| `PoolTightness.UsualLoads` | internal/server/handlers.go:38-42 | one call fits iff it misses at most W + 1 hashes, two calls of k > 1 hashes iff 2 * (k - 1) <= W |
| `PoolTightness.SingleHashesFit` | internal/app/service.go:82-92 | any number of calls that miss at most one hash fit |
| `PoolRate.PoolWindowBound` | internal/network/ratelimiter.go:28-62 | in every timed run of the pool with ticks at least wait apart, any stretch of length T holds at most max + T / wait + 1 node calls of all workers together |
| `Store.PgStore.BeginTx` | internal/store/pg/db.go:174-190 | which transaction is handed out, that the counter grows exactly on success, and when a real transaction is begun |
| `Store.PgStore.CommitTx` | internal/store/pg/db.go:192-199 | an inner end leaves the transaction open and the tables alone; the outermost end commits its tables unless the commit fails |
| `Store.PgStore.RollbackTx` | internal/store/pg/db.go:201-207 | an inner end leaves the transaction open; the outermost end closes it and changes no table |
| `Store.PgStore.InsertElement` | internal/store/pg/db.go:117-146 | one element in any mode: on the pooled executor both tables or neither; while another level is counted it reports success, commits nothing and leaves its transaction open; and what an ambient transaction and its end see |
| `Store.PgStore.InsertTransactions` | internal/store/pg/db.go:115-150 | with no other level counted it computes InsertAll on the pooled executor and ends every transaction it began; with a counted one, as while another request stores, it commits and ends nothing, and each element reported stored leaves a transaction open; in a counted ambient transaction it stops where InsertAll stops and commits nothing; an uncounted ambient transaction is really ended by the first element and a second one fails; the counter is restored on every path |
| `Store.InsertIsAtomic` | internal/store/pg/db.go:115-150 | a failure at element k leaves exactly the elements before k, each in both tables, no trace of k or later, and the link table stays inside users x stored hashes |
| `Store.InsertsUntilObstacle` | internal/store/pg/db.go:115-150 | it stops at the first element that meets a broken statement, an unknown user or a link that is there already, from before or from the same list, and only there |
| `Store.UntouchedRows` | internal/store/pg/db.go:115-150 | rows and links of hashes that are not inserted stay as they were |
| `Store.StoredRows` | internal/store/pg/db.go:125-141 | an inserted element is in the tables, the last of several with one hash, and linked if there is a user |
| `Store.PgStore.GetTransactionsByHashes` | internal/store/pg/db.go:67-112 | without an error it finds each row whose key is the lower case of a requested hash, once, with the user's link iff there is one, in an order left open |
| `Store.WantedIff` | internal/store/pg/db.go:80-84 | it looks for exactly the stored hashes without capitals that some requested text names up to case |
| `Store.LowerAgrees` | internal/store/pg/db.go:81 | two texts have the same lower case iff they agree up to case |
| `Store.PgStore.GetMyTransactions` | internal/store/pg/db.go:53-65 | it returns each row linked to this user once, and no other row |
| `Store.PgStore.InsertTransactionsUser` | internal/store/pg/db.go:153-172 | it computes LinkAll on the tables the executor sees |
| `Store.LinkingIsIdempotent` | internal/store/pg/db.go:153-172 | it adds exactly the missing links of the elements before the first error, also when the loaded relations are out of date |
| `Store.LinksUntilObstacle` | internal/store/pg/db.go:153-172 | it stops at the first row without a loaded link whose statement breaks, or whose link is missing while user or row is unknown; a duplicate row stops nothing |
| `Store.CounterIsDepth` | internal/store/pg/db.go:174-207 | over every properly nested sequence of begins and ends only ends of the outermost level end a transaction, and the transactions begun and not ended are the open one and the nested ones |
| `Store.CounterIsBalance` | internal/store/pg/db.go:174-207 | over every sequence of begins and ends, nested or not, an end is a real one iff it leaves no level open |
| `Store.OuterLevelCommits` | internal/store/pg/db.go:174-207 | on the pooled executor the committed tables are those written through outermost handles; writes of inner levels are never committed |
| `Store.RunNested` | internal/store/pg/db.go:174-199 | BeginTx and CommitTx themselves, called in any proper nesting, leave exactly these tables |
| `Store.NoLeakIffFlat` | internal/store/pg/db.go:174-207 | on the pooled executor all begun transactions are ended iff levels were never nested |
| `Sessions.CommittedIffAlone` | internal/store/pg/db.go:174-199 | in any overlapping of sessions that each hold their own handle, the committed rows are, in order, those of the sessions at whose end no other was open |
| `Sessions.Overlap` | internal/store/pg/db.go:174-199 | BeginTx and CommitTx themselves, called by sessions overlapping in any such way, leave exactly these tables and the counter at zero |
| `Service.AppService.GetTransactionsByHashes` | internal/app/service.go:58-121 | the method with its loops over the store computes Call on every path and leaves the store ready |
| `Service.AppService.LinkFound` | internal/app/service.go:68-77 | the stored rows become available and are linked one by one until an error |
| `Service.AppService.Schedule` | internal/app/service.go:82-92 | one task per missing occurrence in request order, until one is refused |
| `ReadThrough.MissingInOrder` | internal/app/service.go:82-92 | what is scheduled are all occurrences of requested texts that are not available, repeats included, in request order |
| `Service.AppService.Collect` | internal/app/service.go:95-111 | results are received in scheduling order, each persisted before the next, until the first obstacle |
| `ReadThrough.CallPersistsPrefix` | internal/app/service.go:58-121 | however a call ends, the tables gained the links of a prefix of the found rows and the chain records of a prefix of the missing hashes, linked iff there is a user; all of them if it answered; every row stays its chain record |
| `ReadThrough.ReadsThrough` | internal/app/service.go:113-120 | an answered call returns, in request order with repeats, the chain records of exactly the canonical requested texts |
| `ReadThrough.AnswersAllIffCanonical` | internal/app/service.go:113-120 | every requested hash is answered with its own chain record iff all requested texts are canonical |
| `ReadThrough.RemembersTheUser` | internal/store/pg/db.go:53-65 | after an answered call of a user every returned transaction is in that user's list; a call without a user changes no link on any path |
| `UserLists.ListsAfterCall` | internal/store/pg/db.go:53-65 | after any call the list of every other user is what it was, and the caller's is what it was with the found rows it linked and the chain records it stored, all of them if it answered |
| `UserLists.StrangersList` | internal/store/pg/db.go:53-65 | over any sequence of calls the list of a user who makes none of them stays what it was |
| `UserLists.EmptyIff` | internal/store/pg/db.go:53-59 | a list is empty iff its user has no link |
| `UserLists.ListInRun` | internal/app/service.go:58-121 | in every run on the shared database a user's list holds exactly the chain records that were in it, that a lookup linked for him, or that a call of his own stored |
| `ReadThrough.RepeatedCallNeedsNoNode` | internal/app/service.go:82-91 | repeating an answered call of canonical hashes with a working store schedules no task, returns the same list and leaves the tables as they are |
| `ReadThrough.CacheStaysCoherent` | internal/app/service.go:58-121 | over any sequence of calls, failed and cancelled ones included, the store stays a coherent cache and every answered call returned chain records |
| `Repeats.HealthyCallAnswersIff` | internal/store/pg/db.go:132-141 | with database, pool and node in order, a call of any texts answers iff there is no user, or nothing is asked, or the user exists and the records of the missing texts are pairwise different and not linked to the user, in the tables or by the found rows |
| `Repeats.CanonicalNewIff` | internal/app/service.go:82-91 | for canonical hashes that condition says that no hash is requested twice without being available |
| `Repeats.OtherTextIsRefused` | internal/store/pg/db.go:132-141 | two different texts of one record, neither repeated nor stored, are refused to a known user |
| `Repeats.OtherTextIsDropped` | internal/app/service.go:113-120 | with everything in order, a request for one text that is not the hash of its own record is answered with no records and no error |
| `Shared.SharedStaysCoherent` | internal/app/service.go:104-107 | with all calls of a run and all lookups writing to one database, it is a coherent cache of the chain in every reachable state |
| `Shared.LinkIsLookup` | internal/app/service.go:68-77 | the linking of a found row by another call's lookup is an event of the shared database, with the same effect, whenever the row is stored and the user known |
| `SharedCalls.AnsweredIffUnlinked` | internal/store/pg/db.go:132-141 | once a calm run on the shared database rests, a call is answered iff no user, nothing missing, or a known user whose link was absent from the shared tables at each of the call's stores; else the database has refused it |
| `SharedCalls.PrivateAnsweredIff` | internal/store/pg/db.go:132-141 | when no lookup and no other call of its user links a record the call misses, it is answered iff no user, nothing missing, or a known user to whom these records are new at the start, whatever other users' calls do |
| `SharedCalls.AtMostOneAnswered` | internal/store/pg/db.go:132-141 | in every run, cancelled and failing ones included, of the calls of one user that miss the same record at most one is answered |
| `SharedCalls.TwinsSplit` | internal/app/service.go:95-111 | of two simultaneous requests of a known user for one new record exactly one is answered and the other refused |
| `SharedCalls.SharedRunsGoOn` | internal/app/service.go:104-107 | where the pool can move, some calm event is also what the shared database says, so its answers never cut a run short |
| `Replay.AloneIsCall` | internal/app/service.go:95-121 | the reply over the tables that the stores of a call met is the one Call computes when nobody else writes |
| `Replay.EventMirrors` | internal/app/service.go:95-111 | every event on the shared database, of this call or any other, keeps the phase of call r equal to what the collecting loop computes from the messages received and the tables its stores met |
| `Replay.OutcomeIsReply` | internal/app/service.go:82-120 | in every run on the shared database the outcome of call r is the reply the call computes: success iff records, and otherwise the same failure |
| `EndToEnd.PoolFeedsCall` | internal/network/setup.go:53-88 | in every interleaving what a call receives from the pool answers the hashes it scheduled, or is the zero result of a closed channel |
| `EndToEnd.CallsShareTheStore` | internal/app/service.go:58-121 | in every run of calls on one database the tables stay coherent, and a call that answers returns the chain records of its canonical texts |
| `EndToEnd.CalmCallAnswersIff` | internal/app/service.go:58-121 | in a calm run at rest of calls that fit the pool and share the database, a call has returned and answers the chain records of its canonical texts iff no user, nothing missing, or a known user whose link was absent at each of its stores; otherwise the store has refused it |
| `EndToEnd.PrivateCallAnswersIff` | internal/app/service.go:58-121 | when nobody else links for its user a record it misses, the condition is that the missing records are new to the user at the lookup |
| `EndToEnd.PrivateCanonicalCall` | internal/app/service.go:58-121 | for canonical hashes of such a call: every hash is answered with its chain record iff no user, nothing missing, or a known user who requests no hash twice that was not found |
| `Paths.FindLongestOverlap` | internal/store/pg/setup.go:127-148 | the leftmost start of a longest common run of components and its end; (-1, -1) iff no component is shared |
| `Paths.LongestRunUnique` | internal/store/pg/setup.go:127-148 | at most one pair of positions is the leftmost longest run |
| `Paths.CutInPlace` | internal/store/pg/setup.go:160-162 | the two appends into the array that is being read leave the components before and behind the cut, then the relative path |
| `Paths.RemoveOverlap` | internal/store/pg/setup.go:151-168 | the longest overlap is cut out and the relative path goes behind the rest, or both are joined when nothing is shared |
| `Paths.JoinUndoesSplit` | internal/store/pg/setup.go:103-124 | on every clean path joinPath undoes splitPath iff the path is not the root |
| `Paths.CleanKeepsMeaning` | internal/store/pg/setup.go:103-116 | the cleaned components lead to the same directory as the given ones, from the root or, for a relative path, from anywhere |
| `Paths.LeadsToMigrationsIff` | internal/store/pg/setup.go:151-168 | from the base followed by m components of the relative path, the result is the base joined with the relative path iff no run that starts in the base is longer than m, and from where the first one of m components starts the base is these components over and over to its end |
| `Paths.LeadsToMigrations` | internal/store/pg/setup.go:151-168 | in particular when the base shares no component with the relative path |
| `Paths.ProjectRootIff` | internal/store/pg/setup.go:70-75 | from the project directory the result is right iff no component of that directory's path is one of the relative path's |
| `Paths.StoreDirectoryMisleads` | internal/store/pg/setup.go:25-75 | from /store/app the migrations directory is not found |
| `PlanCache.MakeCacheKey` | internal/store/pg/models/boil_types.go:34-52 | the two loops build the kind, the names, and after a dot the names of non-zero defaults if there are any |
| `PlanCache.PrefixFreeDecodes` | internal/store/pg/models/boil_types.go:38-47 | lists over non-empty prefix-free names can be read back from their concatenation |
| `PlanCache.CacheKeyInjective` | internal/store/pg/models/boil_types.go:34-52 | over decodable names without dots and leading digits the key determines the kind, any integer, and both lists |
| `PlanCache.UpsertKeyInjective` | internal/store/pg/models/transactions.go:1152-1178 | the key built inside Upsert determines the flag, both column lists, the conflict columns and the defaults |
| `PlanCache.SlotsDistinguishIff` | internal/store/pg/models/transactions.go:945-1178 | for such names the caches tell all requests without options apart iff names can be read back from their concatenation |
| `PlanCache.TransactionColumnsSuffice` | internal/store/pg/models/transactions.go:289-292 | the columns of the transactions table meet these conditions |
| `PlanCache.ExtendedNamesCollide` | internal/store/pg/models/boil_types.go:38-40 | any name that is another name followed by a name makes two different requests share a key |
| `PlanRuns.RightIffSlotsAgree` | internal/store/pg/models/transactions.go:948-1006 | in every interleaving of concurrent calls each works with its own freshly computed plan iff no two requests with different plans share a slot |
| `PlanRuns.UsualRunsAreRight` | internal/store/pg/models/transactions.go:1019-1069 | over columns that keep slots apart, Insert, Update and Upsert without options always use their own plan |
| `PlanRuns.OptionsMislead` | internal/store/pg/models/transactions.go:1141-1214 | two upserts that differ in options alone, and in their plans, do not both get their own plan in every run |
| `PlanRuns.KeptIffSucceeded` | internal/store/pg/models/transactions.go:947-1006 | when all calls of a run have ended, a slot is in the cache iff a query of one of its calls succeeded |
| `PlanRuns.Caches.Use` | internal/store/pg/models/transactions.go:947-1006 | one call uses the fresh plan, keeps the cache right, and adds the plan iff the query succeeded |
| `EagerLoad.LoadUsers` | internal/store/pg/models/transactions.go:644-743 | each join row becomes a new user handed in row order to the one transaction with its hash, behind what that transaction had, and points back to it alone |
| `EagerLoad.OwnedAreTheRows` | internal/store/pg/models/transactions.go:729-741 | what a transaction is handed are all rows with its hash, once each, in row order |
| `EagerLoad.OwnedByOne` | internal/store/pg/models/transactions.go:731-738 | a loaded user goes to the hash of its row and to no other |
| `EagerLoad.EmptyIffUnlinked` | internal/store/pg/db.go:99-104 | the relation loaded for one user is empty iff the link is absent, so the test before linking (internal/store/pg/db.go:161) is exact |
| `EagerLoad.AddUsers` | internal/store/pg/models/transactions.go:750-792 | the links are inserted until an error; the relations of both sides grow, at their ends, only if all inserts succeeded |
| `EagerLoad.AddsIff` | internal/store/pg/models/transactions.go:760-773 | with a database that does not break, adding succeeds iff the users are known, all different and not linked to the transaction, and the transaction is stored |
| `EagerLoad.AddsUntilObstacle` | internal/store/pg/models/transactions.go:760-773 | it inserts exactly the links of the users before the first obstacle, which stay, and fails iff there is one |
| `EagerLoad.LinkedAnew` | internal/store/pg/models/transactions.go:760-773 | adding succeeds only for users that are all different and not linked yet, and adds exactly their links |
| `EagerLoad.ForgetTransaction` | internal/store/pg/models/transactions.go:871-889 | each related user loses, per occurrence, the first transaction with this hash, its last one moving into the gap |
| `EagerLoad.RemoveUsers` | internal/store/pg/models/transactions.go:824-869 | all links of the related users go, then both relations, unless the statement fails, which changes nothing |
| `EagerLoad.RemovalTakesRelated` | internal/store/pg/models/transactions.go:853-866 | removal by swaps takes one occurrence per related user and nothing else |
| `EagerLoad.RemovalMovesLast` | internal/store/pg/models/transactions.go:853-866 | the first matching element goes, the last takes its place, all others stay where they are |
| `EagerLoad.ForgottenTakes` | internal/store/pg/models/transactions.go:871-889 | a user loses one transaction with the hash for each time he is named, as long as he has any, and no other |
| `EagerLoad.RemoveUndoesAdd` | internal/store/pg/models/transactions.go:750-889 | after a successful add, removing the same users restores the tables, the transaction's users up to order, and an added user's transactions if none had this hash before |

## Left out

- HTTP routing, validation, JSON, tokens, password lookup, RLP decoding, configuration, logging and server start: they hold no invariant of their own.
- Client calls to the node, sender recovery, `HexToHash` and the formatting of addresses: the node is an abstract function with calls that may fail; the conversion of the 64-bit receipt status to int is not modelled.
- SQL text, reflection, hooks and column inference: tables are a map and a set of links with primary-key and foreign-key failures, and a plan is a function of a request's inputs.
- Stores that overlap, inside the pool: in `Shared` each store of a record is one step. `Sessions` covers the overlap of begins, writes and ends on the store alone; its sessions end by committing, and a data race on the unsynchronised counter itself is not modelled.
- `Shared` starts when the lookups have decided what each call misses; later links by lookups are events of the run, and the error of a lookup's own link is part of `Service` only.
- Store.PgStore.InsertTransactions: PostgreSQL's aborted-transaction state is not modelled, so after a failure inside a counted ambient transaction its own tables are left open.
- Store.PgStore.GetTransactionsByHashes: the order of rows is left open, as the query states none.
- Service.AppService.GetTransactionsByHashes: works on record values, so sharing of transaction objects between the lookup result and the answer is not captured; `EagerLoad` covers the objects' relations.
- FetchJoin.StepKeepsInv: fetchers and channels are values of a transition system rather than heap objects, which is what lets every interleaving be quantified over; the out-pointers become two optional fields.
- PoolSafety.StepKeepsInv: the dispatcher and worker goroutines are a transition system; a non-blocking send may be skipped even when a receiver is ready, which allows more runs than Go does.
- RateLimiter.WindowBound: time is an integer stamp on events; a tick that comes early, which the Go ticker may deliver after a delayed one, is outside its hypothesis.
- Paths.RemoveOverlap: the component array has no spare capacity; with a shared component both appends fit without it.
- EagerLoad.LoadUsers: the branch for a single object and the hooks are left out.
- EagerLoad.AddUsers: the option to insert the related users first is left out.
- `SetUsers`, delete and reload helpers, `users.go` (a mirror of `transactions.go`), mocks and the response mappings: unused or only easy members.

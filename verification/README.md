# Verification of the user service's concurrent core

A Dafny model of the parts of the user service in which many threads, coroutines
or requests share state, with proofs of what they keep. `dafny verify
dfyconfig.toml` checks all of it.

## What is modelled

**The connection pool, three times.** `TokenPool` says what a pool of n
connections has to be: a pool without order, and a first-come-first-served pool
that refines it. `StrandPool` is the live pool, `HandoffPool` and `SignalPool`
its two predecessors. Each file holds the pool's objects, updated in place, and a
state machine whose steps are what cannot be interrupted: a strand turn, a
section under the mutex, a channel operation. A connection handed to a woken
coroutine that has not resumed is in a state of its own. The theorems quantify
over all schedules of any number of clients. `PqConnection` is the connection in
the pool, with libpq's asynchronous interface as a small state machine, and
`PooledQueries` puts the two together: many clients, each querying on the
connection it holds, with responses cut off and reads failing anywhere.

**The recycled request handler.** `CallData` splits `Proceed`, `OnLogicFinished`
and the coroutine between them into single accesses to the handler's fields and
lets gRPC, worker threads and Asio threads interleave on them. The machine can
represent any number of armed requests, queued events, workers and coroutines at
once; that there is only ever one is proved, not built in. `SingleUseCallData` is
the first-generation handler, one object a request, built the same way, which the
recycled handler refines. `Rpc` holds the messages and what the five kinds of handler
write, and `Replies` says field by field which call a request leads to and what its
client gets.

**The cache and the account flows.** `Users` is the user with its JSON and its row,
`Keyspace` the Redis keys, and `Accounts` the five calls as coroutines that
interleave at every await with each other, with time, with Redis failures,
evictions, expiries and damaged entries, and with database faults.
`CacheCoherence` and `Registration` prove what holds on every run, and `Answers`
says what each call answers, in terms of rows, stored codes and literal codes.
`Services` is the code of the same calls as methods that log their exchanges with
Redis and PostgreSQL while everything else changes between any two. `Weaving` shows
each log to be the steps of an operation of `Accounts`, and any number of logs woven
together to be one of its runs. `ServiceModel` holds the error codes and the public
fields of a user.

**Arithmetic.** `Uuid` is the byte layout of the version 7 UUIDs, `RoundRobin` the
choice of a Redis connection by a counter that wraps.

`Seqs` and `PoolCore` hold what several modules use.

## Conventions

- A method that changes state states its whole new state as a function of the old
  one, and the lemmas are about that function.
- Runs are sequences of labelled steps (`Enabled`, `Apply`, `Runs`, `Exec`), or in
  `Accounts` sequences of states (`IsTrace`).
- `Platform` gathers what libraries compute: UUID input and output of the database,
  the password digest, JSON text. `Sound` says what is relied on: UUID text reads
  back, JSON text reads back, digests have no NUL and fit their column.
- `if *` and `:= *` stand for what the environment decides.
- Time is in whole seconds; a key stored at t with lifetime d is live while now < t + d.
- Theorems that need it say that rows are only inserted (`InsertOnly`), which is all
  that this program does; the others allow any outside change of the table that
  keeps its unique keys.

## Where the code may surprise

- `Finish` on an authentication failure is called with the status set but the reply
  untouched; the model sends that reply with the error, as the code does.
- Absent optional fields are written to the cache as empty strings, and `empty()` is
  false for an empty JSON string, so they come back present and empty. The cache is
  therefore faithful only up to that, which `JsonRoundTrip` states exactly.
- A read that fails after the first result has arrived is dropped: the query succeeds
  and the broken connection goes back to the pool. `SurvivesExactlyWhenComplete` says
  when.
- A woken getter of the first generation can find the deque empty again;
  `DeprivedExactlyWhenTight` says when.
- SendCode answers success even when Redis refused to store the code, or the number is
  not registered; `SuccessStoresExactlyWhenApplied` says exactly when a code was stored.
- A failure that the server reports after a query's first result is dropped
  (`LaterResultsAreDropped`).
- The ids of all later milliseconds sort after only while the clock fits in 48 bits;
  `LaterSortsAfter` says what happens when it has wrapped.

## Model

| member | source | states |
|---|---|---|
| TokenPool.ConservationIsExclusivity | UserService/infrastructure/persistence/postgresql/src/async_connection_pool.cc:30-62 | Of the abstract pool of n connections: if the bag of all connections is conserved, each one is in exactly one free slot or with exactly one owner, and nothing else is ever in the pool |
| TokenPool.LooseConserves | UserService/infrastructure/persistence/postgresql/old_version/v01/old_async_conn_pool.cc:34-58 | Every step of the pool without order keeps the bag of connections |
| TokenPool.FifoKeepsInv | UserService/infrastructure/persistence/postgresql/src/async_connection_pool.cc:35-60 | Every step of the first-come-first-served pool keeps: queued clients are distinct and still want a connection, and no connection is idle while somebody is queued |
| TokenPool.FifoRefinesLoose | UserService/infrastructure/persistence/postgresql/src/async_connection_pool.cc:35-60 | A direct hand-off is a give-back followed by an acquisition by the head of the queue, so the ordered pool refines the unordered one |
| TokenPool.FifoConserves | UserService/infrastructure/persistence/postgresql/src/async_connection_pool.cc:35-60 | Every step of the ordered pool keeps its invariant and the bag of connections |
| HandoffPool.ConnectionPool.Create | UserService/infrastructure/persistence/postgresql/old_version/v2/old_async_conn_pool.cc:42-49 | A pool is made exactly when the size is positive |
| HandoffPool.ConnectionPool.Init | UserService/infrastructure/persistence/postgresql/old_version/v2/old_async_conn_pool.cc:51-60 | From empty, the deque holds each of the `size` connections once |
| HandoffPool.ConnectionPool.GetConnection | UserService/infrastructure/persistence/postgresql/old_version/v2/old_async_conn_pool.cc:62-79 | Pops the front of the deque, or queues a new waiter at the back and hands it out; nothing else changes |
| HandoffPool.ConnectionPool.ReturnConnection | UserService/infrastructure/persistence/postgresql/old_version/v2/old_async_conn_pool.cc:81-99 | Gives the returned connection to the first waiter and to no other, or else puts it at the back of the deque |
| HandoffPool.StepRefinesFifo | UserService/infrastructure/persistence/postgresql/old_version/v2/old_async_conn_pool.cc:62-99 | Each strand turn is one step of the abstract first-come-first-served pool; a release, which only posts, is invisible there |
| HandoffPool.RunsKeepInv | UserService/infrastructure/persistence/postgresql/old_version/v2/old_async_conn_pool.cc:62-99 | On every schedule of any number of clients the ordered pool's invariant and all n connections are kept |
| StrandPool.WaiterChannel.TrySend | UserService/infrastructure/persistence/postgresql/src/async_connection_pool.cc:52-55 | Succeeds exactly when a receiver is suspended, and then puts the connection in flight to the first one |
| StrandPool.AsyncConnectionPool.Create | UserService/infrastructure/persistence/postgresql/src/async_connection_pool.cc:9-17 | A pool is made exactly when the size is positive |
| StrandPool.AsyncConnectionPool.Init | UserService/infrastructure/persistence/postgresql/src/async_connection_pool.cc:19-28 | From empty, the deque holds each of the `size` connections once |
| StrandPool.AsyncConnectionPool.GetConnection | UserService/infrastructure/persistence/postgresql/src/async_connection_pool.cc:30-47 | The strand turn pops the front of the deque, or suspends the client as the last receiver of the channel |
| StrandPool.AsyncConnectionPool.ReturnConnection | UserService/infrastructure/persistence/postgresql/src/async_connection_pool.cc:49-62 | The posted lambda puts the connection in flight to the first suspended receiver, or at the back of the deque |
| StrandPool.LiveStepIsHandoffStep | UserService/infrastructure/persistence/postgresql/src/async_connection_pool.cc:30-70 | A step of the live pool is the same step of the second generation, except that the arrival of a connection in flight is invisible there |
| StrandPool.LiveRunIsHandoffRun | UserService/infrastructure/persistence/postgresql/src/async_connection_pool.cc:30-70 | Every schedule of the live pool, arrivals left out, is a schedule of the second generation ending in the corresponding state |
| StrandPool.HandoffStepIsLiveSteps | UserService/infrastructure/persistence/postgresql/src/async_connection_pool.cc:30-70 | The live pool matches each second-generation step, with at most one arrival first |
| StrandPool.HandoffRunIsLiveRun | UserService/infrastructure/persistence/postgresql/src/async_connection_pool.cc:30-70 | Every schedule of the second generation is the visible part of a live schedule that ends in the corresponding state |
| StrandPool.RunsStayGood | UserService/infrastructure/persistence/postgresql/src/async_connection_pool.cc:30-70 | Every schedule keeps the invariant and the n connections |
| StrandPool.EveryConnectionInOnePlace | UserService/infrastructure/persistence/postgresql/src/async_connection_pool.cc:19-70 | After Init and any schedule, each connection is in one deque slot, or else in flight to, held by or being returned by exactly one client; and no connection is idle while somebody is queued |
| StrandPool.PlaceInQueue | UserService/infrastructure/persistence/postgresql/src/async_connection_pool.cc:35-60 | A client k places from the front moves up one place with every return step and never otherwise, whoever arrives meanwhile |
| StrandPool.ServedInTurn | UserService/infrastructure/persistence/postgresql/src/async_connection_pool.cc:35-60 | The client at queue position k still waits after k return steps and is given the very connection of the next one |
| StrandPool.NoOvertaking | UserService/infrastructure/persistence/postgresql/src/async_connection_pool.cc:35-60 | Of two queued clients the earlier stays ahead for as long as both wait |
| StrandPool.StepShrinksWork | UserService/infrastructure/persistence/postgresql/src/async_connection_pool.cc:30-70 | Whichever step is taken, the work left in the system shrinks |
| StrandPool.StuckMeansDone | UserService/infrastructure/persistence/postgresql/src/async_connection_pool.cc:30-70 | With a positive size, a state without any enabled step has every client served and every connection idle |
| StrandPool.EveryScheduleFinishes | UserService/infrastructure/persistence/postgresql/src/async_connection_pool.cc:16-70 | With a positive size, no schedule is longer than five steps a client, and one that cannot be extended has served everybody and put every connection back |
| StrandPool.EmptyPoolServesNobody | UserService/infrastructure/persistence/postgresql/src/async_connection_pool.cc:16 | Why the constructor insists on a positive size: an empty pool serves nobody on any schedule |
| SignalPool.SignalChannel.TrySend | UserService/infrastructure/persistence/postgresql/old_version/v01/old_async_conn_pool.cc:56 | A signal wakes the first suspended receiver, or is buffered |
| SignalPool.ConnectionPool.Init | UserService/infrastructure/persistence/postgresql/old_version/v01/old_async_conn_pool.cc:21-32 | From empty, the deque holds each of the `size` connections once |
| SignalPool.ConnectionPool.CheckUnderLock | UserService/infrastructure/persistence/postgresql/old_version/v01/old_async_conn_pool.cc:35-44 | One locked turn of the loop: leave with the front of the deque, or find it empty and change nothing |
| SignalPool.ConnectionPool.AwaitSignal | UserService/infrastructure/persistence/postgresql/old_version/v01/old_async_conn_pool.cc:37-40 | Consumes a buffered signal at once, or suspends the getter as last receiver |
| SignalPool.ConnectionPool.PushUnderLock | UserService/infrastructure/persistence/postgresql/old_version/v01/old_async_conn_pool.cc:48-52 | Puts the connection at the back of the deque |
| SignalPool.ConnectionPool.Signal | UserService/infrastructure/persistence/postgresql/old_version/v01/old_async_conn_pool.cc:56 | Wakes the first receiver or buffers the signal; the deque is not touched |
| SignalPool.StepRefinesLoose | UserService/infrastructure/persistence/postgresql/old_version/v01/old_async_conn_pool.cc:34-58 | A successful check and a push are the two steps of the abstract pool without order; failed checks, signals and waits are invisible there |
| SignalPool.StepKeepsReceivers | UserService/infrastructure/persistence/postgresql/old_version/v01/old_async_conn_pool.cc:34-58 | Receivers are exactly the suspended getters, without repetition, and none is suspended while a signal is buffered |
| SignalPool.StepKeepsWakeUps | UserService/infrastructure/persistence/postgresql/old_version/v01/old_async_conn_pool.cc:34-58 | Every step keeps: while a getter is past its empty check and not signalled, idle connections ≤ buffered signals + woken getters + returners about to signal |
| SignalPool.NoLostWakeUp | UserService/infrastructure/persistence/postgresql/old_version/v01/old_async_conn_pool.cc:34-58 | That bound in every reachable state; so with nothing pending, a waiting getter means an empty deque |
| SignalPool.EveryConnectionInOnePlace | UserService/infrastructure/persistence/postgresql/old_version/v01/old_async_conn_pool.cc:21-58 | On every schedule each connection is idle in one slot or held by one client |
| SignalPool.EveryScheduleFinishes | UserService/infrastructure/persistence/postgresql/old_version/v01/old_async_conn_pool.cc:34-58 | The re-check loop neither spins for ever nor deadlocks: at most six steps a client on any schedule, and only a state with everybody served is stuck |
| SignalPool.ChecksServeInOrder | UserService/infrastructure/persistence/postgresql/old_version/v01/old_async_conn_pool.cc:34-44 | Woken getters that take the lock again one after the other, in any order, get the idle connections in that order, and those beyond the last connection find nothing |
| SignalPool.WokenServedIffEnoughIdle | UserService/infrastructure/persistence/postgresql/old_version/v01/old_async_conn_pool.cc:34-44 | So all of them are served if and only if there are no more of them than idle connections |
| SignalPool.AllWokenServedIffSecure | UserService/infrastructure/persistence/postgresql/old_version/v01/old_async_conn_pool.cc:34-44 | Of all the woken getters of a state the same: every one is served, whatever the order, if and only if their number is at most the number of idle connections |
| SignalPool.DeprivedExactlyWhenTight | UserService/infrastructure/persistence/postgresql/old_version/v01/old_async_conn_pool.cc:34-58 | When first come first served fails, exactly: a step takes a state in which every woken getter can be served to one in which some cannot, if and only if the step is a newcomer finding the deque non-empty or a signal waking one more getter, and idle connections and woken getters were equally many |
| SignalPool.NewcomerOvertakesExactlyWhenTight | UserService/infrastructure/persistence/postgresql/old_version/v01/old_async_conn_pool.cc:34-44 | A newcomer that checks leaves fewer idle connections than woken getters if and only if there were as many of the ones as of the others, and at least one |
| SignalPool.SecureExactlyWhenRoomy | UserService/infrastructure/persistence/postgresql/old_version/v01/old_async_conn_pool.cc:34-58 | Over whole schedules: no woken getter is ever short of a connection if and only if each such step found more idle connections than woken getters |
| SignalPool.LateArrivalCanOvertake | UserService/infrastructure/persistence/postgresql/old_version/v01/old_async_conn_pool.cc:34-58 | A witness of the tight case: a concrete schedule on which a newcomer takes the connection that a woken getter was signalled for |
| PqConnection.PQConnection.SendQuery | UserService/infrastructure/persistence/postgresql/src/pq_connection.cc:53-67 | Throws exactly on a connection that is broken or still busy, and then changes nothing |
| PqConnection.PQConnection.AwaitResponse | UserService/infrastructure/persistence/postgresql/src/pq_connection.cc:69-82 | Reads until a result can be taken; throws exactly when a read failed |
| PqConnection.PQConnection.FetchRawResult | UserService/infrastructure/persistence/postgresql/src/pq_connection.cc:84-102 | Takes results until the null one and returns the first |
| PqConnection.PQConnection.AsyncExecParams | UserService/infrastructure/persistence/postgresql/src/pq_connection.cc:39-49 | The four steps in order, as the function `Executed` that the lemmas below are about |
| PqConnection.ExecReturnsItsOwnResult | UserService/infrastructure/persistence/postgresql/src/pq_connection.cc:39-130 | However the network cuts a response into reads, a usable connection returns the first result, mapped, and is left usable with exactly the later traffic unread |
| PqConnection.AnswersByFirstStatus | UserService/infrastructure/persistence/postgresql/src/pq_connection.cc:104-130 | For every delivered response: an error with the server's message and SQLSTATE if and only if the first result is a bad response or a fatal error; that result if and only if it has rows or completes a command; a null result if and only if there is none or it is of another status |
| PqConnection.EveryQueryGetsItsResponse | UserService/infrastructure/persistence/postgresql/src/pq_connection.cc:84-102 | Over any number of queries on one connection, the i-th is answered from the i-th response: nothing leaks into a later query |
| PqConnection.SurvivesExactlyWhenComplete | UserService/infrastructure/persistence/postgresql/src/pq_connection.cc:39-130 | The exact conditions, on the connection and on what the server sends: a query throws if and only if the connection was lost before or the response does not begin; and the connection is usable afterwards if and only if it was before and the traffic delivers a whole response |
| PqConnection.LostWithoutThrowingExactlyWhenCutShort | UserService/infrastructure/persistence/postgresql/src/pq_connection.cc:84-102 | A query that does not throw loses its connection if and only if the response begins but a read fails before its end |
| PqConnection.SuccessCanLoseTheConnection | UserService/infrastructure/persistence/postgresql/src/pq_connection.cc:84-102 | A concrete such input: the rows are returned as a success and the connection is broken |
| PqConnection.LostStaysLost | UserService/infrastructure/persistence/postgresql/src/pq_connection.cc:39-67 | On a lost connection every later query throws and changes nothing; a query that throws always loses it; one that does not leaves it drained |
| PqConnection.OwnResultOrException | UserService/infrastructure/persistence/postgresql/src/pq_connection.cc:39-130 | Wherever its response is cut short, a query on a usable connection throws or returns the first of its own results, and leaves the connection lost or with nothing unread |
| PqConnection.AnyTrafficIsCut | UserService/infrastructure/persistence/postgresql/src/pq_connection.cc:69-102 | Being such a response, whole or cut short, asks only that nothing follows its end |
| PqConnection.LaterResultsAreDropped | UserService/infrastructure/persistence/postgresql/src/pq_connection.cc:84-102 | What a query returns depends on the first result alone, so a failure reported after it, as at commit, is dropped |
| PooledQueries.PoolRunsAlone | UserService/infrastructure/persistence/dao/user_dao.cc:16-92 | With the query steps left out, a schedule of clients that query pooled connections is a schedule of the live pool, so all the pool's theorems hold on it |
| PooledQueries.QueryIsExecuted | UserService/infrastructure/persistence/postgresql/src/pq_connection.cc:39-49 | The three turns of a client's query, with nothing in between, are one AsyncExecParams |
| PooledQueries.RunsKeepInv | UserService/infrastructure/persistence/dao/user_dao.cc:16-92 | On every schedule, wherever responses are cut off and reads fail: a connection in use holds just what is left of its own client's response, every other one has nothing unread or is lost |
| PooledQueries.EveryClientGetsItsOwn | UserService/infrastructure/persistence/dao/user_dao.cc:16-92 | No client ever gets another client's rows: on every schedule of any number of clients querying at once, wherever responses are cut off and reads fail, each client's result is the first of the response to its own query or an exception, it has it when it gives its connection back, and every connection not in use, idle ones included, has nothing unread or is lost |
| PooledQueries.LostExactlyWhenCutOff | UserService/infrastructure/persistence/dao/user_dao.cc:16-92 | A connection not in use is lost if and only if the response to some query sent on it was not whole; otherwise it is usable with nothing unread |
| PooledQueries.ThrowsExactlyWhenItMust | UserService/infrastructure/persistence/dao/user_dao.cc:16-92 | A client gets an exception instead of its own result if and only if it sent its query on a lost connection or the response to it did not begin |
| PooledQueries.EveryClientGetsItsResponse | UserService/infrastructure/persistence/dao/user_dao.cc:16-92 | The corollary for whole responses, cut into reads in any way: no exceptions, each client the first result of its own response, and every connection not in use usable with nothing unread |
| PooledQueries.EveryScheduleFinishes | UserService/infrastructure/persistence/dao/user_dao.cc:16-92 | With every read ending, in data or in failure, and whatever it brings: at most eight steps a client, and a schedule that cannot be extended has answered every client, if only by an exception, and put every connection back |
| CallData.PooledHandler.Proceed | UserService/adapter/v2/call_data/interface/call_data.hpp:39-54 | One uninterrupted turn: on ok=false or FINISHED the object ends as new and armed once; on WAIT_PROCESSING its status is FINISHED and exactly one Finish or one coroutine is left pending |
| CallData.PooledHandler.HandleProcess | UserService/adapter/v2/call_data/interface/call_data.hpp:57-99 | Status first, then one Finish with the authentication error or one spawned coroutine with the authenticated id |
| CallData.PooledHandler.HandleFinish | UserService/adapter/v2/call_data/interface/call_data.hpp:125-131 | The object is as new before it is armed again |
| CallData.PooledHandler.Reset | UserService/adapter/v2/call_data/interface/call_data.hpp:133-143 | Context, reply and request become empty; the status is kept |
| CallData.PooledHandler.WriteResult | UserService/adapter/v2/call_data/src/login_by_code_call_data.cc:25-31 | The subclasses' writes, in order: status and message always, user id, token or user as the kind of call has it, the last two on success only |
| CallData.PooledHandler.OnLogicFinished | UserService/adapter/v2/call_data/interface/call_data.hpp:153-174 | One Finish with the reply as it stands and OK, or INTERNAL with the exception's text |
| CallData.Manager.Start | UserService/adapter/v2/call_data_manager/interface/call_data_manager.hpp:44-52 | Makes `initial_size` new, distinct handlers, each armed once |
| CallData.WorkIsProceed | UserService/adapter/v2/call_data/interface/call_data.hpp:39-131 | A worker thread left alone goes through its separate accesses to exactly the uninterrupted Proceed |
| CallData.StepKeepsInv | UserService/adapter/v2/call_data/interface/call_data.hpp:39-174 | Every access by a worker thread, a coroutine or gRPC keeps the handler's invariant |
| CallData.RunsKeepInv | UserService/adapter/v2/call_data/interface/call_data.hpp:39-174 | So does every interleaving of them, of any length |
| CallData.OneObligation | UserService/adapter/v2/call_data/interface/call_data.hpp:39-174 | Under every interleaving exactly one of these is pending: a request armed, an event queued or being handled, a coroutine, a Finish; and Finish has been called once for each accepted request but the one being served |
| CallData.DeliveryFindsItsStatus | UserService/adapter/v2/call_data/interface/call_data.hpp:66-98 | A Finish completion always finds FINISHED and a request event WAIT_PROCESSING, so Proceed takes the branch meant for the event |
| CallData.ResetIsExclusive | UserService/adapter/v2/call_data/interface/call_data.hpp:125-143 | While a worker resets the context no event, Finish, coroutine, armed request or second worker can touch the object |
| CallData.RecycledEqualsFresh | UserService/adapter/v2/call_data/interface/call_data.hpp:125-143 | After any history, the n-th answer of a recycled object is the answer of any new object to that request alone with the same service outcome: same service call, reply and status |
| CallData.AnswersAreFresh | UserService/adapter/v2/call_data/interface/call_data.hpp:125-174 | Every answer is the one computed from empty fields for the request accepted with the same number |
| CallData.LogicAloneDoesNotClear | UserService/adapter/v2/call_data/src/get_user_info_call_data.cc:25-36 | Why Reset is needed: for every kind of call and result, the logic leaves the reply as it would an empty one if and only if each field it does not overwrite was empty; it overwrites token and user on success only |
| CallData.AlwaysBackInPool | UserService/adapter/v2/call_data/interface/call_data.hpp:39-174 | No handler is lost: without a new request it is armed again within fourteen steps on every schedule |
| CallData.SpawnBeforeStatusProcessesTwice | UserService/adapter/v2/call_data/interface/call_data.hpp:80-98 | The hazard in the code's comment: were the coroutine spawned before the status is written, its completion could be delivered first and the answered request would be processed again |
| CallData.PoolKeepsInv | UserService/adapter/v2/call_data_manager/interface/call_data_manager.hpp:44-58 | Any number of handlers sharing the queue and the threads keep, each, the invariant of one |
| CallData.PoolIsIndependent | UserService/adapter/v2/call_data_manager/interface/call_data_manager.hpp:44-58 | On every schedule of a pool, each handler goes through exactly its own steps, as it would alone |
| CallData.PooledHandlersAreReachable | UserService/adapter/v2/call_data_manager/interface/call_data_manager.hpp:44-58 | So in a pool of any size each handler is always in a state that one alone reaches, to which all the theorems above apply, and has exactly one thing pending |
| Replies.TurnExactly | UserService/adapter/v2/call_data/interface/call_data.hpp:39-123 | What one turn does, by status and caller: recycle and arm; else FINISHED and a spawned coroutine for the four kinds without authentication; for GetUserInfo a coroutine with the verified id, or UNAUTHENTICATED "Missing Authorization Header" or "Invalid Token" |
| Replies.UserInfoIsForTheVerified | UserService/adapter/v2/call_data/interface/call_data.hpp:101-123 | After any schedule: GetUserInfo asked for the data of a user if and only if the caller presented, bare or after a leading "Bearer ", a token that verifies as that user's |
| Replies.RefusedExactlyWithoutToken | UserService/adapter/v2/call_data/interface/call_data.hpp:101-123 | Without a header, or with a token that does not verify, the service is not called, the reply is empty and the status is the matching UNAUTHENTICATED; with one that does, it never is |
| Replies.OthersAlwaysCall | UserService/adapter/v2/call_data/interface/call_data.hpp:61-98 | The four other kinds always call their service, each with its own fields of the request |
| Replies.ReplyOfResult | UserService/adapter/v2/call_data/src/login_by_code_call_data.cc:19-31 | The reply to a call that returned: its code and message, the id for Register, the token on a successful login, the user on a successful GetUserInfo, and nothing else |
| Replies.ReplyOfException | UserService/adapter/v2/call_data/interface/call_data.hpp:153-174 | The reply to a call that threw is empty, with status INTERNAL and the exception's text |
| SingleUseCallData.RegisterCallData.HandleCreate | UserService/adapter/v1/src/register_call_data.cc:35-38 | A new object is armed and expects a request |
| SingleUseCallData.RegisterCallData.HandleProcess | UserService/adapter/v1/src/register_call_data.cc:40-55 | A fresh successor is armed, then this object is finished with and its logic spawned |
| SingleUseCallData.RegisterCallData.OnLogicFinished | UserService/adapter/v1/src/register_call_data.cc:68-92 | Sends the reply once, with OK or INTERNAL |
| SingleUseCallData.OneAcceptorOneAnswer | UserService/adapter/v1/src/register_call_data.cc:35-92 | From the first object on, every schedule: an object not deleted has exactly one thing pending and a deleted one none, so no event reaches freed memory; exactly the newest has no successor, and only it can be armed or hold a request event; each object sends at most once, and once before it is deleted |
| SingleUseCallData.DeliveryFindsItsStatus | UserService/adapter/v1/src/register_call_data.cc:21-59 | A request event finds PROCESS and a completed Finish FINISH |
| SingleUseCallData.PooledRefinesSingleUse | UserService/adapter/v1/src/register_call_data.cc:40-59 | Whatever clients see of a pooled handler without authentication, some schedule of single-use objects shows them: the same requests in order, the same replies and statuses for those answered, and the one being served still unanswered |
| Users.FillFromJson | UserService/domain/user.cc:45-69 | Filling an object field by field, stopping at the first that throws, gives the function `FromJson` |
| Users.JsonRoundTrip | UserService/domain/user.cc:30-69 | Decoding an encoded user turns absent optional fields into empty strings and changes nothing else; it is the identity exactly for users with all three present; and doing it twice adds nothing |
| Users.DecodesExactly | UserService/domain/user.cc:45-69 | Exactly which JSON values decode, and to what: four texts, two numbers, and three optional texts of which absent, null and empty containers, but not empty strings, give no value |
| Users.UpdateProfileExactly | UserService/domain/user.cc:17-23 | Each of the three fields is replaced if given and kept if not, nothing else changes, and of two updates the later wins |
| Users.CreatedUserRoundTrip | UserService/infrastructure/persistence/dao/user_dao.cc:16-39 | A user read back from a row that CreateUser wrote survives the cache exactly |
| Users.CacheIsInvisible | UserService/infrastructure/persistence/dao/user_dao.cc:95-113 | For any row, NULL columns included, the trip through the cache is idempotent and changes no GetUserInfo response and no password check |
| Users.CStringIsPrefix | UserService/infrastructure/persistence/postgresql/src/pq_connection.cc:53-67 | A parameter reaches the database up to its first NUL, and whole exactly when it has none |
| Users.ToInt16 | UserService/domain/user.cc:53 | The cast to the 16-bit status keeps the value modulo 2^16, and the value itself when it fits |
| Keyspace.KeysAreInjective | UserService/infrastructure/domain_implement/src/verification_code_repository.cc:60-74 | For all strings: equal code keys come from the same usage and target, equal user keys from the same id, and no code key is a user key |
| CacheCoherence.OpsOk | UserService/infrastructure/domain_implement/src/user_repository.cc:34-90 | On every run each operation in progress or finished has evidence in an earlier state: the row it holds was read, the entry it returned was live, the code it presented was stored |
| CacheCoherence.EntriesOk | UserService/infrastructure/domain_implement/src/user_repository.cc:61-90 | On every run each stored value has its origin: a fill with a row actually read, the last code saved for that key, or damage that does not decode |
| CacheCoherence.BoundedStaleness | UserService/infrastructure/domain_implement/src/user_repository.cc:61-90 | Even with rows changed from outside: a cache hit shows what the database held at a step later than the hit's time minus 3600 s minus the delay between that fill's read and its SET |
| CacheCoherence.FoundStaysFound | UserService/infrastructure/domain_implement/src/user_repository.cc:61-90 | With rows only inserted, a user once found is found unchanged ever after |
| CacheCoherence.GetUserByIdLinearizable | UserService/infrastructure/domain_implement/src/user_repository.cc:34-90 | Over any interleaving with other operations, Redis failures, expiries and damaged entries, a non-error result is, up to NULL and the empty string, what the row lookup gives at an instant inside the call: after its start and before every state in which it has ended |
| CacheCoherence.CodesAreFresh | UserService/service/src/auth_service.cc:68-86 | A successful LoginByCode or Register presented the code that, at the very step at which it read and accepted it, was the last one stored for that exact usage and phone number, less than 300 s before, however long the waits that followed |
| Registration.KeysStayUnique | UserService/init_sql/init_users.sql:4-24 | In every reachable state no two rows have the same id, the same phone number, or the same email unless it is empty, from the constraints that the database enforces on each insert and outside change |
| Registration.SuccessHasItsRow | UserService/service/src/basic_user_service.cc:36-53 | Every registration that reported success has its row, with the reported id, the phone number, the name and the salted digest of the password |
| Registration.OneRegistrationPerPhone | UserService/service/src/basic_user_service.cc:27-53 | However many registrations race between check and insert, at most one succeeds for a phone number, and no two report the same id |
| Registration.RegisteredIsFound | UserService/service/src/basic_user_service.cc:36-53 | From then on the lookup by that id finds a user with that id whose stored digest accepts that password |
| Registration.RegisterThenLogin | UserService/service/src/auth_service.cc:104-126 | After a registration has succeeded, every later LoginByPassword with its id and password succeeds with that id, from cache or database and with anything interleaved, unless the database fails |
| Answers.SelectByPhoneFinds | UserService/infrastructure/persistence/dao/user_dao.cc:66-67 | The lookup by phone number finds a live row with that number, and none only if there is none |
| Answers.SelectByIdFinds | UserService/infrastructure/persistence/dao/user_dao.cc:45-46 | The same for the id |
| Answers.RowOfExactly | UserService/infrastructure/persistence/dao/user_dao.cc:19-31 | The row that CreateUser writes, column by column, and exactly when the values fit |
| Answers.AdmittedExactly | UserService/init_sql/init_users.sql:4-24 | A row is admitted if and only if no row has its id, its phone number, or its email unless that is empty |
| Answers.CodeReadExactly | UserService/infrastructure/domain_implement/src/verification_code_repository.cc:39-74 | A code is accepted if and only if Redis answers and it is the live value under the key of that usage and phone number, spelled out; else 3002 |
| Answers.PhoneReadExactly | UserService/infrastructure/persistence/dao/user_dao.cc:64-92 | A phone lookup, for each of the three calls that make one: exception, 1000, nobody found (2001, go on, or silent success), or a live row with that number (its id, 2002, or go on) |
| Answers.CodeSaveExactly | UserService/service/src/auth_service.cc:64-79 | Six digits, stored for 300 seconds under the key of the usage and phone number, spelled out, for usage 1 always and for 2 and 3 after the lookup |
| Answers.RejectExactly | UserService/service/src/auth_service.cc:60-62 | 1001 if and only if the usage is none of 1, 2 and 3 |
| Answers.InsertExactly | UserService/infrastructure/persistence/dao/user_dao.cc:16-39 | An insert of Register without fault whose values fit succeeds, with exactly the new row appended, if and only if no row has its id or its phone number; else 1000 and no change |
| Answers.InsertFails | UserService/service/src/basic_user_service.cc:46-51 | With a fault, or with values too long, no registration is reported |
| Answers.CacheReadExactly | UserService/infrastructure/domain_implement/src/user_repository.cc:36-59 | GetUserById is served from the cache if and only if Redis answers with a live entry under the id's key that parses and decodes |
| Answers.DbReadExactly | UserService/infrastructure/persistence/dao/user_dao.cc:41-62 | The database read: exception, 1000 (also for text that is no UUID), 2001 exactly when no live row has the id, or that row's user, column by column |
| Answers.CacheFillExactly | UserService/infrastructure/domain_implement/src/user_repository.cc:71-90 | The fill stores the user's JSON for 3600 seconds, if Redis takes it, and answers with the user either way |
| Answers.LoginByPasswordAnswers | UserService/service/src/auth_service.cc:104-126 | On every run: a user found is logged in if and only if the digest of the presented password with its salt is the stored one, and refused with 2003 otherwise; 2001 for none; 1000 or an exception for a database error |
| Answers.GetUserInfoAnswers | UserService/service/src/basic_user_service.cc:56-79 | On every run: a user found is shown with its public fields, NULL as the empty string; 2001 for none; 1000 or an exception for a database error |
| Answers.FetchedIsARow | UserService/infrastructure/domain_implement/src/user_repository.cc:34-90 | From cache or database: the user a call got is, field by field, a live row that had the id at an instant inside the call, and it got none only when there was no such row |
| Answers.LoginByCodeAnswers | UserService/service/src/auth_service.cc:81-102 | On every run, by the last exchange: 3002 only if the code was not the live one; at the lookup the id of a live row with that phone number, or 2001 if and only if there was none, or an error |
| Answers.RegisterAnswers | UserService/service/src/basic_user_service.cc:20-54 | On every run, by the last exchange: 3002, 2002 with a row that has the number, errors, or success if and only if the values fit and id and number were new |
| Answers.SendCodeAnswers | UserService/service/src/auth_service.cc:29-79 | On every run: 1001 if and only if the usage is unknown, an error of the lookup, or success |
| Answers.RegisterSucceedsExactly | UserService/service/src/basic_user_service.cc:46-53 | A registration that reaches its insert without fault and with values that fit succeeds, for good, if and only if its id and its phone number are new, whoever else has registered |
| Answers.OnlyTheRegisteredPassword | UserService/utils/src/security_util.cc:42-56 | After a registration, a later LoginByPassword with its id that meets no database error succeeds if and only if its password has the registered one's digest with the row's salt, and gets 2003 otherwise |
| Answers.RegisteredIsShown | UserService/service/src/basic_user_service.cc:56-79 | After a registration, a later GetUserInfo with its id that meets no database error shows the registered name and phone number, with empty email and avatar |
| Answers.RegisteredLogsInByCode | UserService/service/src/auth_service.cc:88-101 | After a registration, a later LoginByCode with the phone number as stored never answers 2001, and if it succeeds reports the registered id |
| Answers.StoredCodeIsAccepted | UserService/service/src/auth_service.cc:68-86 | A code stored for usage 2 is accepted by LoginByCode, and for usage 1 by Register, for that phone number and for 300 seconds, unless evicted or replaced |
| Answers.CodesAreLeftAlone | UserService/infrastructure/domain_implement/src/verification_code_repository.cc:60-74 | Nothing but eviction and another SendCode for the same usage and number touches a stored code |
| Answers.FillIsServed | UserService/infrastructure/domain_implement/src/user_repository.cc:34-90 | For an hour after a fill, unless evicted or replaced, a read of that id is served with that user |
| Services.UserRepository.GetUserById | UserService/infrastructure/domain_implement/src/user_repository.cc:20-91 | Which exchanges are made, in which order and with what, and the result: cache, then database unless a usable entry was found, then a fill with the user found |
| Services.VerificationCodeRepository.GetCode | UserService/infrastructure/domain_implement/src/verification_code_repository.cc:39-58 | One GET of the usage's key; a Redis failure counts as no code |
| Services.VerificationCodeRepository.SaveCode | UserService/infrastructure/domain_implement/src/verification_code_repository.cc:19-37 | One SET of the usage's key with the expiry; a failure is ignored |
| Services.AuthService.SendCode | UserService/service/src/auth_service.cc:29-79 | Stores a code for five minutes for any number on registration, otherwise only for a registered one; refuses unknown usages; answers success for an unregistered number |
| Services.SuccessStoresExactlyWhenApplied | UserService/service/src/auth_service.cc:64-79 | A SendCode that answers success has stored its code, under the key of that usage and number and for five minutes, if and only if the number was registered, where that is asked, and its SET took effect |
| Services.RefusedSetAnswersSuccess | UserService/infrastructure/domain_implement/src/verification_code_repository.cc:32-36 | A concrete SendCode that answers success and stores nothing: Redis refuses the SET |
| Services.AuthService.LoginByCode | UserService/service/src/auth_service.cc:81-102 | The code is compared first; only then is the phone number looked up |
| Services.AuthService.LoginByPassword | UserService/service/src/auth_service.cc:104-126 | GetUserById, then the password check |
| Services.BasicUserService.Register | UserService/service/src/basic_user_service.cc:20-54 | Code, then phone number, then the insert of a user made from the request; the world may change between any two |
| Services.BasicUserService.GetUserInfo | UserService/service/src/basic_user_service.cc:56-79 | GetUserById, then the user's public fields |
| Weaving.GetUserByIdIsOperation | UserService/infrastructure/domain_implement/src/user_repository.cc:20-91 | Whatever exchanges a GetUserById call makes are, in order, enabled steps of one operation of the interleaved model each with the same effect on all shared state |
| Weaving.SendCodeIsOperation | UserService/service/src/auth_service.cc:29-79 | The same for SendCode |
| Weaving.LoginByCodeIsOperation | UserService/service/src/auth_service.cc:81-102 | The same for LoginByCode |
| Weaving.RegisterIsOperation | UserService/service/src/basic_user_service.cc:20-54 | The same for Register |
| Weaving.RunSendCode | UserService/service/src/auth_service.cc:29-79 | An execution of SendCode, its log and its response are such a call as the weaving theorems speak of |
| Weaving.RunLoginByCode | UserService/service/src/auth_service.cc:81-102 | The same for LoginByCode |
| Weaving.RunLoginByPassword | UserService/service/src/auth_service.cc:104-126 | The same for LoginByPassword |
| Weaving.RunRegister | UserService/service/src/basic_user_service.cc:20-54 | The same for Register |
| Weaving.RunGetUserInfo | UserService/service/src/basic_user_service.cc:56-79 | The same for GetUserInfo |
| Weaving.StepIsLocal | UserService/infrastructure/domain_implement/src/user_repository.cc:20-91 | A step of one operation in a state with any others acts as on that operation alone: it sees no other and changes none |
| Weaving.WovenIsTrace | UserService/service/src/basic_user_service.cc:20-79 | Calls of the services' code woven together in any way, with each other and with time, expiry, damage and outside changes, follow a run of the interleaved model, from any run so far |
| Weaving.WovenCallsAreRun | UserService/service/src/basic_user_service.cc:20-79 | So every weaving is a run in which each finished call is a finished operation with the same request and result: what is proved of every run holds of this code |
| Weaving.OneRegisterCallPerPhone | UserService/service/src/basic_user_service.cc:20-54 | One theorem carried over: of any weaving of calls as they are written, at most one Register succeeds for a phone number |
| Uuid.GenerateUUID | UserService/utils/src/id_generator.cc:8-69 | The sixteen bytes, assigned and masked in place, spell the number that section 5.7 of RFC 9562 lays out; version 7 and variant 2 hold for every clock value |
| Uuid.Fill | UserService/utils/src/id_generator.cc:23-52 | The sixteen bytes before version and variant are set |
| Uuid.LayoutIsRfc9562 | UserService/utils/src/id_generator.cc:23-62 | The bytes are the low 48 bits of the clock, the version, the variant and 74 of the 96 random bits, in that layout |
| Uuid.LayoutDecodes | UserService/utils/src/id_generator.cc:23-62 | From the number one reads back the timestamp, the version, the variant and the random bits |
| Uuid.EqualExactlyOnSameFields | UserService/utils/src/id_generator.cc:23-62 | Two ids are equal if and only if their clocks agree in the low 48 bits and they drew the same 74 bits |
| Uuid.MasksAreArithmetic | UserService/utils/src/id_generator.cc:58-62 | For every byte the code's two mask expressions are the arithmetic of the layout |
| Uuid.OrderIsValueOrder | UserService/utils/src/id_generator.cc:27-33 | Bytes are in lexicographic order exactly when their values are in order |
| Uuid.TextKeepsOrder | UserService/utils/src/id_generator.cc:64-68 | The text form of section 4 is in lexicographic order exactly when the bytes are |
| Uuid.TextReadsBack | UserService/utils/src/id_generator.cc:64-68 | The text has 36 characters, hyphens at 8, 13, 18 and 23, lower-case hexadecimal digits elsewhere, and reads back to the sixteen bytes |
| Uuid.SortsByClock | UserService/utils/src/id_generator.cc:27-33 | Ids sort, as bytes and as text, by the low 48 bits of their clocks |
| Uuid.LaterSortsAfter | UserService/utils/src/id_generator.cc:27-33 | An id of a later millisecond sorts after for as long as the clock fits in 48 bits; just after the clock has wrapped it sorts before |
| Uuid.SortsAfterExactlyByLowClock | UserService/utils/src/id_generator.cc:27-33 | For any two clock values: every id of the second sorts after every id of the first, as bytes and as text and whatever they drew, if and only if the first clock is less in the low 48 bits |
| RoundRobin.RedisClient.Create | UserService/infrastructure/state_storage/redis_dao/redis_client.cc:13-17 | A client is made exactly when the pool size is positive |
| RoundRobin.RedisClient.GetNextConnection | UserService/infrastructure/state_storage/redis_dao/redis_client.cc:221-226 | The j-th pick overall, whoever makes it, is counter value j modulo 2^64 modulo the number of connections |
| RoundRobin.WindowPicksEach | UserService/infrastructure/state_storage/redis_dao/redis_client.cc:221-226 | Every k·n consecutive requests without a wrap of the counter pick each of the n connections exactly k times |
| RoundRobin.BalancedUpToWraps | UserService/infrastructure/state_storage/redis_dao/redis_client.cc:221-226 | After any number of requests spanning w wraps, the picks of any two connections differ by at most w + 1 |
| RoundRobin.BalancedWithin | UserService/infrastructure/state_storage/redis_dao/redis_client.cc:221-226 | The same with the wraps spelled out: before the counter has gone round w + 1 times, no connection is more than w + 1 picks ahead of another |
| RoundRobin.DriftPerCycle | UserService/infrastructure/state_storage/redis_dao/redis_client.cc:221-226 | A wrap costs balance exactly when n does not divide 2^64: then each full cycle favours the first connection over the last by one |

## Left out

- Server shutdown and draining of the completion queue: `Proceed` arms the handler again on every ok=false, so no claim is made that draining ends; ok=false occurs in the model on Finish completions only.
- Destruction of the pool while a posted return still holds its raw `this`: the pool outlives its clients here.
- A connection that fails while the pool is being filled: Init is modelled for connections that come up; AsyncConnect's polling is the environment's.
- Repair of failed connections: the code has none. A connection lost to a failed read goes back to the pool as it is; `SurvivesExactlyWhenComplete` says when that happens and `LostStaysLost` what it means for later queries.
- PooledQueries.EveryScheduleFinishes: every read ends. A server that neither answers nor closes the connection is not representable; in the code AwaitResponse would wait for it for ever, since there is no timeout.
- Registration.SuccessHasItsRow: an INSERT whose first result is a success is taken as committed. The server reports the command complete before it commits, and a failure after the first result is dropped, so a commit that fails then is reported as a success and is not in `Accounts`.
- Order of strand posts: any posted turn may come next in the model, which allows more schedules than a strand does.
- Channels: that receivers are served first come first served, and that a channel operation is atomic, is assumed of the library; for the first generation this holds only if its channel is used from one thread at a time.
- CallData.DeliveryFindsItsStatus: speaks of interleaved single accesses in program order; it does not model a weaker memory order between the status write and the library call that follows it.
- The first generation's placeholder logic is replaced by an arbitrary outcome, and its handlers have no ok flag.
- The other handler subclasses and managers, which only forward fields.
- A null result from the database, which the code reads as an empty row set: lookups in `Accounts` either fail or answer with rows.
- Late effects: a SET or an INSERT that failed takes effect at its own step or not at all.
- An exception from serialising a user for the cache counts as a SET that did not take effect.
- JSON numbers with a fraction or exponent, integers beyond 64 bits, and the clock's range in nanoseconds.
- Text encodings, and PostgreSQL's length checks by encoded character: strings are sequences of characters.
- SELECT parsing of timestamps: `created_at` is a number of seconds.
- Response messages and the content of tokens: a response carries its code, the user's id and the public fields.
- Random generation: codes, salts and UUID words are any values of their form; that UUIDs do not repeat comes from the primary key.
- UpdateUserInfo (not implemented), ChangePassword and MarkAsDeleted (never stored).
- Configuration, thread pools, wiring, service registry, logging and build files.

# LatticeFlow, modelled and proved in Dafny

LatticeFlow is a C++ library of join semilattices, dataflow operators and concurrent queues, with a
replicated key-value store built from them. This project models its four groups of code and proves
what they are for. `dafny verify dfyconfig.toml` checks everything.

**Lattices and the store.** `Semilattices` proves the laws of `lattice.h` for every lattice the store
uses and says exactly when the timestamp lattice has them. `Lattices` has the classes that join in
place, each tied to its join function, also when an object is joined into itself. `Store` is one server
thread: a class updated in place, tied to a transition function. `Replication` runs any number of
server threads, with any interleaving of requests and any order of delivery, and proves convergence.
`Publishing` says when a server publishes and what. `Posts` refines the runs to single letters, in the
order they were published and with the count of receivers each message carries. `Guarantees` and `OrderedDelivery` say exactly when writes are found,
when delivery alone converges and when batches arrive whole.
`Decimals` and `Stamps` are about begin timestamps. `Clients` has the READ COMMITTED (RC) and Item Cut
Isolation (ICI) clients against an arbitrary server, `Isolation` puts them in front of these servers,
`ClientReads` says what they are shown there, and `ClientGuarantees` exactly when they find what was
committed.

**Concurrency.** `Monitors`, `BoundedQueues`, `Queues` and `QueueRuns` model the two blocking queues with
their condition variables; `ThreadPools`, `Exchanges` and `BlockingExchanges` are the protocols on top of
them. A class method is one indivisible section of the C++ code and is tied to a transition function; the
theorems are about all runs of such sections. `Exchanges` proves them of steps that cannot be taken while
a queue is empty; `BlockingExchanges` has the threads that sleep and are woken instead, proves that they
refine those steps, and carries the theorems over.

**Operators.** `Relations` says what a join computes. `Operators` has the nested-loop operators, whose
coroutines are explicit suspended loops; `HashJoins` has the symmetric hash joins.

**Smaller machines.** `Timers` (event loop and timers), `Dedups` and `PullDups` (duplication and
deduplication), `HexDumps`. `Options`, `Maps`, `Counting` and `Pullers` are shared.

## How the C++ is read

- A condition variable is a set of waiting and a set of notified threads. Code between taking the
  mutex and waiting or releasing it is one step; spurious wakeups are steps; which thread a
  `notify_one` wakes is arbitrary. Threads are named by numbers.
- A client's request, its handling and the reply are one step, since the client blocks and a server
  handles one request at a time. The broker's choice of a server is arbitrary. A published message
  becomes one undelivered copy per other thread. Losing copies published before a receiver has
  subscribed (`server.cc:210-224`) is a step too; the convergence results ask that it has not happened.
- `std::unordered_map` iteration order is arbitrary. Strings are compared as `std::string` does.
- The 64-bit timestamp of a put and of a begin reply is narrowed to a 32-bit `int` where the code does
  so (`ToInt32`). `std::stoi` throws when its text does not fit an `int`; the handler then changes
  nothing. Other counters (`local_timestamp`, `update_counter`, `num_resets_`, `timer_id_`) are
  unbounded.
- `hexdump.cc` leaves `std::hex` set on the stream after its first byte, so all indices come out in
  hexadecimal (the first is 0).
- Ghost fields and history fields (`emitted`, `accepted`, `sent`, ...) record what has happened; no
  step reads them.

## Where the code and its comments disagree

The model follows the code.

- `timestamp_lattice.h:20-22` says vector clocks may be used as timestamps. The join is associative
  exactly when the timestamps are totally ordered (`TimestampIsSemilatticeIffTotal`).
- `exchange.h:62-69`: the RESET case inside the loop falls through to `return`. A reset in the middle of
  a pass can stop the producer and leave `next` waiting for ever (`ThreadsMidPassResetCanHang`). If every reset
  follows the empty result, or the pass has no tuples, `next` returns, except that one more `next` after
  the empty result waits for ever too (`ThreadsStuckIffPastTheEnd`).
- `server.cc:108`: a message has one receiver fewer than there are threads, so no receiver sees the count
  that makes it free the message, in any run (`NoReceiverFrees`). Freeing itself is not part of this model.
- `pushpull/join.h:83-122`: when the side whose turn it is has ended, `pull` keeps asking it, so the other
  side is starved and matches are missing, exactly when a starved value has one (`PullManyTimes`).
- `server.cc:128` asks why the two numbers are concatenated. It makes timestamps unique for up to ten
  threads and no more (`TimestampsUniqueIff`).
- `bounded_queue.h:14` wants a positive capacity and does not check it. Capacity zero is exactly the case
  that can deadlock (`DeadlockIffNoCapacity`).
- `pushpull/join.h:59,62,133` declare the right side with the left type; the model has the right type.
- `pushpull/dup.h`: with fewer than one copy the push form drops everything and the pull form replays its
  first answer for ever.

## Model

| member | source | states |
|---|---|---|
| Semilattices.JoinGivesOrder | src/lattices/lattice.h:28-31 | An associative, commutative, idempotent join induces, through `operator<=`, a partial order in which it is the least upper bound |
| Semilattices.OrderGivesJoin | src/lattices/lattice.h:18-26 | Dually, least upper bounds of a partial order form such a join, and `operator<=` gives the order back |
| Semilattices.MaxIsSemilattice | src/lattices/max_lattice.h:10-40 | Max of any strict total order is a totally ordered semilattice, with its `<` as the induced strict order |
| Semilattices.PairIsSemilattice | src/lattices/pair_lattice.h:11-15 | Pairs of semilattices form a semilattice, ordered in both components |
| Semilattices.VectorIsSemilattice | src/lattices/vector_lattice.h:12-16 | Vectors of any lengths form a semilattice; below means no longer, and below element by element |
| Semilattices.ArrayIsSemilattice | src/lattices/array_lattice.h:13-18 | Arrays of one length are closed under the join, obey the three laws and are ordered element by element |
| Semilattices.MapIsSemilattice | src/lattices/map_lattice.h:14-29 | Maps into a semilattice form a semilattice; below means every binding has one at least as large |
| Semilattices.TimestampCommutesAndIdempotent | src/lattices/timestamp_lattice.h:11-20 | Commutative and idempotent for any timestamps, partially ordered ones included |
| Semilattices.UnrelatedTimestampsBreakAssociativity | src/lattices/timestamp_lattice.h:18-22 | For any two unrelated timestamps and any two values, the first not below the second, three elements on which the two groupings give different values |
| Semilattices.TimestampIsSemilatticeIffTotal | src/lattices/timestamp_lattice.h:20-27 | If there are two values at all, the join is associative, and a semilattice, if and only if timestamps are totally ordered |
| Semilattices.TimestampOrderIsLexicographic | src/lattices/timestamp_lattice.h:18-20 | Over total timestamps a bigger timestamp dominates, and equal ones compare by value |
| Lattices.MaxLattice.Join | src/lattices/max_lattice.h:21 | The in-place join equals max on the old values |
| Lattices.PairLattice.Join | src/lattices/pair_lattice.h:42-45 | The in-place, component by component join equals the pair join on the old values, aliasing included |
| Lattices.TimestampLattice.Join | src/lattices/timestamp_lattice.h:48-62 | The three-way branch computes the timestamp join of the old values, aliasing included |
| Lattices.VectorLattice.Join | src/lattices/vector_lattice.h:48-55 | The loop and the tail insertion compute the vector join of the old values, aliasing included |
| Lattices.ArrayLattice.Join | src/lattices/array_lattice.h:32-36 | The loop over the array in place computes the pointwise join of the old arrays, aliasing included |
| Lattices.MapLattice.Join | src/lattices/map_lattice.h:42-52 | Whatever order the other map is iterated in, the loop computes the map join of the old maps |
| Lattices.MapLattice.Get | src/lattices/map_lattice.h:54-55 | The bound value, or the exception as None exactly when the key is unbound |
| Lattices.MapLattice.Put | src/lattices/map_lattice.h:61-67 | A put is a join with the one-binding map |
| Store.DatabaseIsSemilattice | src/key_value_stores/server.cc:44-49 | The store's entries and its whole database are semilattices, the entries totally ordered |
| Store.EntryJoinSelects | src/key_value_stores/server.cc:45-48 | Joining two stored entries yields one of them, never a mixture |
| Store.StringLessIsDictionaryOrder | src/lattices/max_lattice.h:21 | Strings are compared as in a dictionary: at the first place where they differ or one ends |
| Store.JoinKeepsTheLater | src/key_value_stores/server.cc:44-49 | Of two entries the join keeps the one with the larger timestamp, and at equal timestamps the string that comes later |
| Store.NarrowingWraps | src/key_value_stores/server.cc:152-154 | A 64-bit timestamp becomes the int that differs from it by a multiple of 2^32 |
| Store.BelowIsOrder | src/lattices/lattice.h:71-78 | The order of databases is a partial order |
| Store.JoinIsLub | src/key_value_stores/server.cc:106 | Joining a received database gives the least database above both |
| Store.Server.constructor | src/key_value_stores/server.cc:63-81 | A fresh server is in the initial state of the transition function |
| Store.Server.ProcessRequest | src/key_value_stores/server.cc:119-177 | New state, reply and published delta are those of the transition function for begin, get, put and unset requests; when `stoi` throws nothing has changed |
| Store.Server.PutAll | src/key_value_stores/server.cc:149-157 | The loop over the pairs folds single puts into database, change set and counter |
| Store.PutPairsLeave | src/key_value_stores/server.cc:149-157 | Under each key a put request leaves the latest of what was there and of the values it has for the key, by timestamp and then by string, and nothing else |
| Store.ReceiveLeaves | src/key_value_stores/server.cc:106 | Under each key a received message leaves the later of the two entries, by timestamp and then by string |
| Store.Server.SendGossip | src/key_value_stores/server.cc:95-98 | The message is exactly the changed keys with their current joined values; the lookup never throws |
| Store.Server.ReceiveGossip | src/key_value_stores/server.cc:104-106 | Receiving joins the message into the database and changes nothing else |
| Replication.PutPairsGrow | src/key_value_stores/server.cc:148-159 | A put request only grows a replica, puts every key it wrote into the change set, reaches each of its writes and adds nothing that no client wrote |
| Replication.GossipKeepsCover | src/key_value_stores/server.cc:168-172 | Publishing and clearing the change set forgets no write: its cover moves to a message or the sender's database |
| Replication.DeliverKeepsCover | src/key_value_stores/server.cc:104-106 | Joining a delivered message in forgets no write |
| Replication.RunKeepsInvariant | src/key_value_stores/server.cc:83-177 | Every run keeps: each accepted write is at replica j, or still in its server's change set, or in a message to j, unless messages were lost; and every entry anywhere is some accepted write |
| Replication.NothingExceedsTotal | src/key_value_stores/server.cc:85-159 | In every run, lossy or not, no replica or message exceeds the join of all accepted puts, and each replica is above its own |
| Replication.RunGrows | src/key_value_stores/server.cc:104-159 | Over every run, lossy or not, a server's store only grows: no key is unbound and no entry goes down |
| Replication.Convergence | src/key_value_stores/server.cc:51-56 | Once nothing is left to publish or deliver and nothing was lost, every replica equals the join of all accepted puts |
| Replication.LowThresholdFlushes | src/key_value_stores/server.cc:37-39 | With a threshold of at most 1 and more than one thread, change sets that are empty stay empty after every step of every run |
| Replication.AnyDeliveryOrderConverges | src/key_value_stores/server.cc:102-111 | From a state with empty change sets, delivering all outstanding messages in any order makes every replica the join of all accepted puts |
| Replication.AllCanBeDelivered | src/key_value_stores/server.cc:250-256 | From every state that keeps the invariant, so from every state of a run, all outstanding messages can be delivered |
| Replication.NoThinAirReads | src/key_value_stores/server.cc:135-147 | A get always answers; timestamp and value of a successful answer come from one accepted write of that key; it fails only if the key is unbound |
| Replication.AnswersSucceedIff | src/key_value_stores/server.cc:126-165 | Begins and puts succeed, gets do if the key is bound, unset requests do not; only a begin can throw, exactly when its stamp does not fit an int |
| Publishing.PublishesIff | src/key_value_stores/server.cc:168-172 | After every run, a request makes its server publish if and only if the pairs it has accepted since it last published are at least as many as the threshold and it is not the only thread; the message has exactly their keys, with what is now stored |
| Decimals.BeginTimestampSmallIds | src/key_value_stores/server.cc:129-130 | For thread ids below ten the parsed text is 10 * local_timestamp + thread_id, and the handler throws exactly when that exceeds an int |
| Decimals.FourThreadsLimit | src/key_value_stores/server.cc:127-134 | With four threads exactly the local timestamps up to 214748364 can be answered |
| Decimals.BeginTimestampsIncrease | src/key_value_stores/server.cc:129-132 | One thread's timestamps increase with its counter, whatever its id |
| Decimals.TimestampsUniqueIff | src/key_value_stores/server.cc:128-130 | No two (local timestamp, thread) pairs give one timestamp if and only if there are at most ten threads |
| Stamps.BeginTimestampsOfRun | src/key_value_stores/server.cc:127-134 | Over every run of the whole system one thread's begin replies strictly increase, and with at most ten threads all begin replies differ |
| Stamps.NthBegin | src/key_value_stores/server.cc:127-134 | Over every run the n-th begin a thread answers, counted from zero, gets the stamp of n and the thread id |
| Clients.RcClient.Begin | src/key_value_stores/rc_client.cc:29-42 | The request sent, the timestamp printed, the narrowed one of the reply, and the new session, for any reply |
| Clients.RcClient.Get | src/key_value_stores/rc_client.cc:44-60 | Answered from the write buffer without a request, otherwise by the server; keeps nothing |
| Clients.RcClient.Put | src/key_value_stores/rc_client.cc:62-68 | Buffered after a begin, refused before one |
| Clients.RcClient.End | src/key_value_stores/rc_client.cc:70-87 | Sends each buffered pair once under the current timestamp and clears the buffer even if the server fails |
| Clients.IciClient.Begin | src/key_value_stores/ici_client.cc:28-41 | The request sent, the timestamp printed, the narrowed one of the reply, and the new session, for any reply |
| Clients.IciClient.Get | src/key_value_stores/ici_client.cc:43-62 | Write buffer first, then read buffer, then the server, whose value is kept |
| Clients.IciClient.Put | src/key_value_stores/ici_client.cc:64-70 | Buffered after a begin, refused before one; the read buffer stays |
| Clients.IciClient.End | src/key_value_stores/ici_client.cc:72-90 | Sends each buffered pair once under the current timestamp and clears both buffers even if the server fails |
| Clients.TimestampIsTheLastBegins | src/key_value_stores/rc_client.cc:36-38 | After any history a session of either client runs under the timestamp of the last begin that succeeded, and under -1 if there was none |
| Clients.ItemCutIsolation | src/key_value_stores/ici_client.cc:43-90 | Against any server, a successful read of a key is repeated by every later read until the next end or accepted put of that key |
| Clients.ReadYourWrites | src/key_value_stores/ici_client.cc:43-70 | Both clients read the most recently accepted put of a key until the next end |
| Clients.FailedReadsAreNotCached | src/key_value_stores/ici_client.cc:55-60 | A failed read leaves the session as it was and the next read asks the server again |
| Clients.AnsweredLocallyIff | src/key_value_stores/ici_client.cc:44-47 | A key is answered locally if and only if since the last end it was put, or, with a read buffer, successfully read |
| Clients.ReadFromServer | src/key_value_stores/ici_client.cc:50-62 | Every get that is not answered locally shows the value of the reply, or an error if that failed |
| Clients.ReadsAgreeIff | src/key_value_stores/rc_client.cc:44-60 | After any history, two reads of a key in a row agree for all replies if and only if the key is buffered; that a successful read is repeated always holds with the read buffer, and without it if and only if an accepted put has written the key since the last end |
| Isolation.EndCommits | src/key_value_stores/rc_client.cc:70-87 | An end writes at a server exactly what its transaction last put for each key, all of it and nothing else, under the transaction's timestamp, which is not negative if there is anything to write |
| Isolation.EndedUnderTheLastBegin | src/key_value_stores/rc_client.cc:70-79 | In every run an end commits under the timestamp that a server answered to that client's last begin |
| Isolation.NothingWithoutABegin | src/key_value_stores/rc_client.cc:62-68 | A client that never began has nothing to commit |
| Isolation.RunKeepsInvariant | src/key_value_stores/rc_client.cc:29-87 | In every run of clients and servers, a write buffer holds exactly the last put of each key since the last end, and the servers have accepted exactly what ended transactions last put |
| Isolation.ReadCommitted | src/key_value_stores/server.cc:135-159 | Whatever any server answers to a get is the last value some client put for that key in a transaction it has ended, under that transaction's own non-negative timestamp |
| Isolation.StoredTimestampsNonNegative | src/key_value_stores/ici_client.cc:64-75 | No server ever stores a timestamp below 0 or above an int |
| ClientReads.ClientsReadCommitted | src/key_value_stores/ici_client.cc:43-62 | In every run a get shows what the client last put for the key in its open transaction; if it put nothing, what some ended transaction last put for that key, or an error if the server asked has no value for it |
| Isolation.GreatestCommitIsStored | src/key_value_stores/server.cc:51-56 | Once the servers are quiet and nothing was lost, every server binds exactly the keys for which something was committed, each to the committed entry with the largest timestamp, and of those the string that comes last |
| Guarantees.WritesFoundIff | src/key_value_stores/server.cc:135-159 | In every run each write accepted at server i is found at server j, or a greater one, if and only if i is j |
| Guarantees.DeliveryConvergesIff | src/key_value_stores/server.cc:37-39 | Delivering all outstanding messages, with no further request, makes every state of every lossless run agree on the join of all accepted puts if and only if there is at most one thread or the threshold is at most 1 |
| Guarantees.BatchesWholeIff | src/key_value_stores/server.cc:148-172 | For any threshold, with messages in any order: in every run every batch accepted at server i is seen at server j whole or not at all if and only if i is j |
| OrderedDelivery.RunKeepsOnItsWay | src/key_value_stores/server.cc:95-111 | Between two servers, in runs that keep the order of messages: server j has all of the batch, or nothing but other writes while its channel brings other writes first and the whole batch then, or the batch waits in the change set |
| OrderedDelivery.BatchesWholeInOrderIff | src/key_value_stores/server.cc:95-111 | If the messages of one server reach another in the order published and none is lost: in every run every batch accepted at server i is seen at server j whole or not at all if and only if i is j or there are at most two servers |
| Posts.NoReceiverFrees | src/key_value_stores/server.cc:107-110 | In every run, every receiver that is handed a message gets a count below the number of threads minus one from `fetch_add`, so none frees it |
| Posts.ReceiversAreCounted | src/key_value_stores/server.cc:107-110 | In a run without loss `fetch_add` gives a receiver exactly the number of other receivers that have had the message; the last is given the number of threads minus two |
| Posts.PostsAreRuns | src/key_value_stores/server.cc:95-111 | Every run of single letters is a run of the bag of messages the other results are about |
| Posts.RunsArePosts | src/key_value_stores/server.cc:95-111 | And every run of the bag is one of single letters |
| ClientGuarantees.CommitsFoundIff | src/key_value_stores/ici_client.cc:72-90 | In every run every committed key is found at every server, with the committed entry or a greater one, if and only if there is at most one server or no client |
| ClientGuarantees.OwnCommitMayBeUnread | src/key_value_stores/README.md:39-43 | A client that begins at any server b, puts, and ends at any server e does not yet find its own value at any server g other than e, be it b or a third one as the round-robin broker picks |
| BoundedQueues.BoundedQueue.PushSection | src/concurrency/bounded_queue.h:19-26 | One section of `push`: sleeps when full, else appends and notifies one popper; state as the transition function says |
| BoundedQueues.BoundedQueue.PopSection | src/concurrency/bounded_queue.h:28-37 | One section of `pop`: sleeps when empty, else takes the front and notifies one pusher |
| BoundedQueues.BoundedQueue.TryPopSection | src/concurrency/bounded_queue.h:39-49 | Takes the front and notifies one pusher, or returns nothing |
| BoundedQueues.BoundedQueue.ClearSection | src/concurrency/bounded_queue.h:51-55 | Empties the queue and notifies all pushers |
| BoundedQueues.RunKeepsInvariant | src/concurrency/bounded_queue.h:19-55 | Every run keeps: size within capacity; what the pushes that went through added is what pops and clears took and then the queue; and on each side, while anyone waits, at least as many awake threads as items or free slots |
| BoundedQueues.BoundedFifo | src/concurrency/bounded_queue.h:10-55 | After every run the size is within the capacity and the queue is what the pushes that went through added, in their order, minus what pops and clears took from the front; this history is told by the actions |
| BoundedQueues.CallsAreLastPushes | src/concurrency/bounded_queue.h:19-24 | What a woken push adds is the argument of that thread's last call of `push` |
| BoundedQueues.NoLostWakeups | src/concurrency/bounded_queue.h:25-35 | If someone sleeps in `pop` while there are items, or in `push` while there is room, some awake thread's next section takes the front, or appends the value of its call |
| BoundedQueues.SleepersHaveReason | src/concurrency/bounded_queue.h:19-37 | When all threads inside are asleep, poppers face an empty queue and pushers a full one |
| BoundedQueues.DeadlockIffNoCapacity | src/concurrency/bounded_queue.h:13-15 | Pushers and poppers can all be asleep together if and only if the capacity is zero |
| BoundedQueues.ResumesSettle | src/concurrency/bounded_queue.h:21-31 | Woken threads cannot wake each other for ever: a bounded number of sections, and until all sleep one can run |
| Queues.Queue.PushSection | src/concurrency/queue.h:18-22 | Appends and notifies one waiting thread if there is any |
| Queues.Queue.PopSection | src/concurrency/queue.h:24-32 | Sleeps on an empty queue, else takes the front |
| Queues.Queue.TryPopSection | src/concurrency/queue.h:34-43 | Takes the front or returns nothing; wakes nobody |
| Queues.Queue.ClearSection | src/concurrency/queue.h:45-48 | Empties the queue; wakes nobody |
| Queues.PushKeepsAlert | src/concurrency/queue.h:18-22 | A push loses no wakeup |
| Queues.PopKeepsAlert | src/concurrency/queue.h:24-32 | A pop loses no wakeup, also when it takes an item past a notified thread |
| QueueRuns.RunKeepsInvariant | src/concurrency/queue.h:18-48 | Every run of pushes, pops, try-pops, clears and spurious wakeups by any number of threads keeps first in first out and, while anyone sleeps, at least as many awake threads as items |
| QueueRuns.Fifo | src/concurrency/queue.h:18-48 | After every run the queue is what entered minus a prefix, in order |
| QueueRuns.NoLostWakeups | src/concurrency/queue.h:18-32 | After every run, if someone sleeps while there are items, an awake thread's pop goes through; when all threads inside are asleep the queue is empty |
| QueueRuns.ResumesSettle | src/concurrency/queue.h:26-28 | Each woken thread runs one section without new calls and spurious wakeups, and one can run until all sleep |
| ThreadPools.ThreadPool.constructor | src/concurrency/thread_pool.cc:5-9 | Starts the workers on an empty queue; none if the number is negative |
| ThreadPools.ThreadPool.SubmitSection | src/concurrency/thread_pool.cc:20 | A submitted task is queued last, also while the pool is being destroyed |
| ThreadPools.ThreadPool.PoisonSection | src/concurrency/thread_pool.cc:11-14 | The destructor pushes one pill per worker, then goes on to joining |
| ThreadPools.ThreadPool.TakeSection | src/concurrency/thread_pool.cc:22-25 | A worker sleeps, gets the front task to run, or leaves its loop on a pill |
| ThreadPools.RunKeepsInvariant | src/concurrency/thread_pool.cc:5-27 | Every run conserves tasks and pills, keeps count of the tasks ahead of the last pill and each dequeued task with one worker or finished, and loses no wakeup; tasks may be submitted until the destructor returns |
| ThreadPools.DequeuedInOrder | src/concurrency/thread_pool.cc:20-27 | At every moment the tasks dequeued and then the queue are the tasks that the submit calls passed, in order, each dequeued one run by one worker or finished |
| ThreadPools.DestructorWaitsForAllWork | src/concurrency/thread_pool.cc:11-18 | When the destructor returns each worker has taken one pill and, if there is a worker, exactly the tasks passed to submit before the last pill have run and finished, so all of those before the first pill, and all there are if nobody submits later; the others are still queued; without workers nothing ran |
| ThreadPools.FinishedByCompleting | src/concurrency/thread_pool.cc:22-27 | A task finishes only by being run to its end, and each run finishes another one |
| ThreadPools.DestructorNeverStuck | src/concurrency/thread_pool.cc:11-18 | Until the destructor returns some thread can take a step other than a spurious wakeup or a submission |
| ThreadPools.DestructorAlwaysReturns | src/concurrency/thread_pool.cc:11-18 | In every run, once the destructor has begun it returns after a bounded number of steps, four more for each task submitted meanwhile and spurious wakeups aside |
| BlockingExchanges.ExchangeOperator.Produce | src/flow/exchange.h:52-87 | One section of the producer's loop, the fall-through and falling asleep on an empty queue of signals included, as the transition function says |
| BlockingExchanges.ExchangeOperator.PullSection | src/flow/exchange.h:38-44 | One pop of `next`: falls asleep on an empty buffer, else returns the result if it is of the current pass, else takes another turn |
| BlockingExchanges.ExchangeOperator.ResetSection | src/flow/exchange.h:46-49 | Counts the reset and signals it |
| BlockingExchanges.ExchangeOperator.DieSection | src/flow/exchange.h:30-31 | Signals DIE |
| Exchanges.RunKeepsInvariant | src/flow/exchange.h:38-87 | Every run keeps the producer behind by exactly the pending resets and, within a pass, results plus buffer equal to what was pushed |
| Exchanges.ResultsArePrefixOfPass | src/flow/exchange.h:38-49 | For every schedule and any use of reset, the results since the last reset are a prefix of the child's current pass and one empty result; nothing of another pass and nothing lost |
| Exchanges.DestructorAlwaysReturns | src/flow/exchange.h:30-33 | After any run from the start, once DIE is queued the threads take a bounded number of steps, and until the producer is joined a step is possible |
| Exchanges.NextAlwaysReturns | src/flow/exchange.h:38-44 | After any run from the start in which resets only follow the empty result or passes without tuples, a `next` before the end of the pass is through after a bounded number of steps, and until then a step is possible |
| Exchanges.HungIffPastTheEnd | src/flow/exchange.h:38-44 | Under that discipline no step is possible inside `next` if and only if the pass's empty result has already been returned |
| Exchanges.MidPassResetCanHang | src/flow/exchange.h:62-69 | For any child, in any pass with tuples, at any point before its empty result, one reset has a schedule after which `next` waits for ever |
| BlockingExchanges.SleepersMissNothing | src/concurrency/queue.h:18-32 | Whenever a step of the exchange is possible its thread is awake to take it, and conversely: nobody sleeps through a push |
| BlockingExchanges.MovesAreSteps | src/flow/exchange.h:30-87 | Every run of the sleeping and waking threads, spurious wakeups included, is a run of steps with stutters |
| BlockingExchanges.StepsAreMoves | src/flow/exchange.h:30-87 | Every run of steps is a run of the threads |
| BlockingExchanges.ThreadsDeliverPrefix | src/flow/exchange.h:38-49 | The safety theorem for every schedule of the threads |
| BlockingExchanges.ThreadsDestructorAlwaysReturns | src/flow/exchange.h:30-33 | After any run of the threads from the start, once DIE is queued nobody sleeps any more, the threads move a bounded number of times, and until the producer is joined one can go on |
| BlockingExchanges.ThreadsNextAlwaysReturns | src/flow/exchange.h:38-44 | After any run of the threads from the start under the discipline on resets, a `next` before the end of the pass returns after a bounded number of moves, two more for each spurious wakeup, and until then some thread can do more than fall asleep |
| BlockingExchanges.ThreadsStuckIffPastTheEnd | src/flow/exchange.h:38-44 | Under that discipline a consumer inside `next` is stuck if and only if the pass's empty result has already been returned |
| BlockingExchanges.StuckForEver | src/flow/exchange.h:38-44 | A stuck consumer stays stuck, whatever wakes up |
| BlockingExchanges.ThreadsMidPassResetCanHang | src/flow/exchange.h:62-69 | For any child, in any pass with tuples, at any point before its empty result, one reset has a schedule of the threads after which `next` is stuck |
| Relations.EquijoinIsSelection | src/flow/naive_equijoin.h:38-47 | The equijoin is the selection of equal keys from the product, tuple for tuple in order |
| Relations.EquijoinCount | src/flow/naive_equijoin.h:38-47 | A pair of equal keys occurs once for each combination of occurrences of its halves; no other pair occurs |
| Relations.ProductAt | src/flow/cross.h:37-44 | The product runs through the right values once for each left value, in order |
| Operators.Iterator.Next | src/flow/iterator.h:16-24 | The next value, and nothing for ever after the end |
| Operators.Iterator.Reset | src/flow/iterator.h:26 | Back to the beginning |
| Operators.NaiveEquijoin.constructor | src/flow/naive_equijoin.h:22-26 | Starts a full pass, wherever the children stood |
| Operators.NaiveEquijoin.Next | src/flow/coroutine_operator.h:24-32 | Delivers the head of what remains of the equijoin, and nothing for ever after the end |
| Operators.NaiveEquijoin.Reset | src/flow/naive_equijoin.h:29-33 | From any point, all of the equijoin remains again |
| Operators.NaiveEquijoin.RunToYield | src/flow/naive_equijoin.h:38-47 | Resuming the suspended loops up to the next yield neither drops nor adds a match |
| Operators.Cross.Next | src/flow/coroutine_operator.h:24-32 | Delivers the head of what remains of the product, and nothing for ever after the end |
| Operators.Cross.Reset | src/flow/cross.h:28-32 | From any point, all of the product remains again |
| Operators.Cross.RunToYield | src/flow/cross.h:37-44 | Resuming the suspended loops up to the next yield neither drops nor adds a pair |
| Operators.Filter.Next | src/flow/filter.h:19-28 | Delivers the head of the selection of what remains of its child |
| Operators.Filter.Reset | src/flow/filter.h:30 | The whole selection remains again |
| Operators.ObserveEquijoin | src/flow/coroutine_operator.h:24-37 | For every sequence of `next` and `reset`, what a caller sees: the equijoin in order, empty after the end, all over after a reset |
| Operators.EquijoinLikeFilteredProduct | src/flow/naive_equijoin.h:22-47 | The equijoin and the filtered product of the same inputs answer every sequence of `next` and `reset` alike |
| HashJoins.EquijoinMoreRight | src/pushpull/join.h:45-51 | A new right value adds to the equijoin, as a multiset, exactly its matches with the left values so far |
| HashJoins.PushJoin.PushLeft | src/pushpull/join.h:37-43 | Emits the matches with the right values so far, in their order; everything emitted stays the equijoin of the inputs |
| HashJoins.PushJoin.PushRight | src/pushpull/join.h:45-51 | Emits the matches with the left values so far, in their order; everything emitted stays the equijoin of the inputs |
| HashJoins.HashJoinRefinesNestedLoops | src/pushpull/join.h:37-51 | After any interleaving of pushes the emitted multiset equals that of the nested-loop join of the two inputs |
| HashJoins.PullJoin.Pull | src/pushpull/join.h:83-122 | Emitted plus buffered pairs stay the equijoin of the consumed values; left leads right by 0 or 1 as `pull_left` says; an upstream is asked exactly when every match so far has been emitted, namely the one whose turn it is, which keeps the turn if it has nothing; nothing is answered only with an empty buffer; the matches of a value are buffered in order and emitted from the back |
| HashJoins.PullJoin.ConsumeLeft | src/pushpull/join.h:90-100 | Asks the left upstream once, consumes its value and buffers its matches with the right values so far, in their order, or leaves the turn where it was |
| HashJoins.PullJoin.ConsumeRight | src/pushpull/join.h:101-112 | Asks the right upstream once, consumes its value and buffers its matches with the left values so far, in their order, or leaves the turn where it was |
| HashJoins.PullManyTimes | src/pushpull/join.h:83-122 | For upstreams that end, with nothings in between as they like: pulls never emit a pair outside the join; enough of them emit exactly the join of the first q + 1 left and the first p right values, for p left and q right values in all; that is the whole join if and only if no left-out value has a match |
| HashJoins.PrefixJoin | src/pushpull/join.h:90-112 | What a join of prefixes lacks of the whole, and that it lacks nothing if and only if no left-out value has a match |
| Timers.Driver.RegisterEventHandler | src/click/driver.cc:8-11 | Adds the handler and its poll item; the two lists stay aligned |
| Timers.Timer.Push | src/click/timer.h:97-104 | The value is held under a fresh id with its handler on the driver |
| Timers.TurnKeepsBalance | src/click/driver.cc:29-49 | After any number of handlers of a turn, whichever fired and whatever they registered or pushed: a timer's handler is on the driver once if its map holds it and otherwise not at all, and each value pushed is held or was delivered, once |
| Timers.FiringTimerIsHeld | src/click/timer.h:51-60 | A timer handler whose turn comes has not been freed: its map still holds it |
| Timers.RunOnce | src/click/driver.cc:13-56 | One turn: handlers registered meanwhile, then those that did not fire or are not one-off, in order; exactly the fired timers are delivered and gone from driver and map; the two lists stay aligned |
| Timers.RunTurns | src/click/driver.cc:13-57 | Any number of turns, with registrations and pushes between and during them, leave driver, map and history as `Loop.After` says; the two lists stay aligned |
| Timers.DeliveredAtMostOnce | src/click/timer.h:51-70 | After any number of turns, whatever fired: each value that entered was delivered at most once; until then, and no longer, the map holds it, and its handler is on the driver once |
| Timers.DeliveredIffReady | src/click/driver.cc:34-44 | A held value is delivered in a turn if and only if its timer is ready in that turn, and held after it otherwise |
| Timers.OthersStay | src/click/driver.cc:34-44 | Of the other handlers a turn takes off the driver exactly those that are one-off and ready, each once, and adds those registered meanwhile |
| Timers.ReadyStaysIff | src/click/driver.cc:38-44 | A ready handler, other than a timer's, stays on the driver if and only if it is not one-off |
| Timers.HistoryGrows | src/click/driver.cc:13-57 | Later turns take back no delivery and no entry |
| Timers.RunHandler | src/click/timer.h:51-60 | Running a handler: its effects happen in order, then a timer's own entry is gone |
| Dedups.PassedStep | src/pushpull/dedup.h:23-29 | A value is passed on exactly when its occurrence number is a multiple of the number of copies |
| Dedups.PassedCount | src/pushpull/dedup.h:23-29 | A value is passed on floor(occurrences / copies) times, never if copies < 1 |
| Dedups.Dedup.Push | src/pushpull/dedup.h:23-29 | Counters and output stay what the input stream so far determines |
| Dedups.ErasingDedup.constructor | src/click/dedup.h:20-24 | Starts empty; demands at least two copies as the assertion does |
| Dedups.ErasingDedup.Push | src/click/dedup.h:26-37 | The erasing variant passes on exactly what the resetting one does |
| Dedups.Dup.Push | src/pushpull/dup.h:21-25 | The downstream receives the value as many times as asked, none if negative |
| Dedups.DedupInvertsDup | src/pushpull/dup.h:21-25 | Duplicating then deduplicating by one number is the identity if and only if the number is at least one or the stream is empty |
| Dedups.RoundTrip | src/pushpull/dedup.h:17-35 | The same for the operators chained together, for any number of copies |
| PullDups.DupPull.Pull | src/pushpull/dup.h:43-52 | Answer n is the upstream's answer n / copies; with fewer than one copy it is the first answer for ever |
| PullDups.DedupPull.Pull | src/pushpull/dedup.h:48-57 | Whatever the upstream has answered, that is the answer when its counter wraps, nothings counted like values; else there is none |
| PullDups.AnswersArePassed | src/pushpull/dedup.h:48-57 | The values the pull form answers with are those the push form passes on |
| PullDups.PullThrough | src/pushpull/dup.h:37-60 | n pulls through Dup and Dedup of one number yield exactly the values of the first n / copies upstream answers, in order, and none with fewer than one copy |
| HexDumps.Hex | src/zmq_util/hexdump.cc:21-29 | Two digits a byte, one space between |
| HexDumps.Ascii | src/zmq_util/hexdump.cc:46-55 | One character a byte, a dot if it is not printable |
| HexDumps.HalfRow | src/zmq_util/hexdump.cc:106-120 | The paddings of empty, partial and full half rows all give one layout of eight cells |
| HexDumps.LastRow | src/zmq_util/hexdump.cc:106-123 | A last row of one to sixteen bytes has that layout, and `assert(false)` is unreachable |
| HexDumps.HexDump | src/zmq_util/hexdump.cc:74-126 | The loop, the separators and the row cases write the rows of the data from byte 0 on, one to a line |
| HexDumps.DumpIsRecoverable | src/zmq_util/hexdump.cc:74-126 | There are ceiling(size / 16) lines, one for no bytes, and reading the hexadecimal columns back gives exactly the bytes |
| HexDumps.EveryCharacter | src/zmq_util/hexdump.cc:74-126 | Row r is labelled 16 * r in at least eight hexadecimal digits, more only if needed, and every character after the label is the digit, text character, bar or blank that belongs there |
| HexDumps.ColumnsAlignIff | src/zmq_util/hexdump.cc:75-120 | The ASCII column starts at one offset in every row if and only if there are at most 2^32 bytes |

## Left out

- ZeroMQ sockets and polling, protobuf encoding, logging, the broker and the command prompt: input and output. Poll results, effects of handlers and replies are parameters.
- GossipData: freeing, and passing raw pointers between threads; messages are immutable values with a count.
- Reading one's own commits, and batches visible at once: not promised. What was committed is found everywhere only with one server (`ClientGuarantees.CommitsFoundIff`), batches are whole only where they were accepted (`Guarantees.BatchesWholeIff`) or, with messages in order, between two servers (`OrderedDelivery.BatchesWholeInOrderIff`). Other guarantees across transactions (monotonic reads, writes following reads) are not looked at.
- RucClient (`ruc_client.cc`), and the Boolean, min and set lattices: simpler instances of what is here.
- `Id`, `Drop`, `Tee`, `If`, `Map`, `Counter`, `Register`, `RoundRobin`, `GroupBy`, `Barrier`, `Call` and `split`: easy members.
- `ConnectionId` and `EnvelopedMessage` comparison: not used by anything proved here.
- ThreadPools.ThreadPool.CompleteSection: running a task is two sections, start and end; what a task does besides submitting is not modelled.
- BlockingExchanges.ExchangeOperator.Produce: the child is given by what each of its passes yields.
- Exchanges.DestructorAlwaysReturns: a thread on an empty queue just cannot step here; `BlockingExchanges.ThreadsDestructorAlwaysReturns` has it sleep and wake.
- Exchanges.NextAlwaysReturns: the same; `BlockingExchanges.ThreadsNextAlwaysReturns` has the threads sleep and wake.
- Operators.NaiveEquijoin.constructor: the children are iterators with state of their own, not arbitrary operators, since which operator a child is would have to be dispatched on at run time.
- Operators.Filter.Next: the child is a `Cross`, not an arbitrary operator.
- Operators.Filter.Reset: the child is a `Cross`, not an arbitrary operator.
- HashJoins.PushJoin.PushLeft: the downstream records what it is given; one that pushes back into the same join is excluded.
- HashJoins.PushJoin.PushRight: the same.
- Timers.Timer.Push: delays and the timer file descriptors; when a timer fires is arbitrary. Handlers other than this timer's, another timer's included, are opaque one-off or lasting handlers.
- Overflow of `local_timestamp`, `update_counter`, `num_resets_`, `timer_id_` and the counters of Dup and Dedup.
- `StringLess` compares characters as unsigned; the sign of `char` on a platform is not modelled.

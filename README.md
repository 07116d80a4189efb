# TimeCapsule delayed-delivery broker in Dafny

This project models TimeCapsuleD, a delayed-delivery message broker backed by Redis.

A producer sends `STORE <queue> <date>` and then a payload. The broker keeps the item in the queue's delayed index until its embargo date. The promotion loop then moves it to the tail of the queue's pending list.

A consumer sends `FETCH <queue>`. It gets the payload at the head of the pending list and either acknowledges it with `ACK` or closes the connection. When a consumer closes without acknowledging, the item it held goes back to the queue.

The backing store is one class. It holds:
- the queue directory;
- per queue, an id counter, the delayed index (id to embargo in ms), the pending list of ids and the payload table (id to item);
- the promotion locks.

Each Redis command is one method. So is each MULTI/EXEC block. Each is applied atomically, in program order.

Each source class becomes a Dafny class whose methods change the store, with the same steps in the same order. The methods are tied to pure functions over a queue's data, and the lemmas are proved about those functions:
- Storer becomes `Producer.Storer`.
- Getter becomes `Consumer.Getter`.
- the promoter (`Impender`) becomes `Promoter.Inpender`.
- Stats becomes `Reporter.Stats`.
- the connection handler becomes `Protocol.TimeCapsule` and `Protocol.Connection`.

Modules:
- `Wrappers`: Option, Result and Outcome.
- `Text`: JavaScript `split(' ')`, `trim()`, `join` and the decimal rendering of numbers.
- `Keys`: Redis key naming.
- `QueueModel`: one queue's data, its transitions and its invariant.
- `Store`: the backing store.
- `Producer`, `Consumer`, `Promoter`, `Reporter`: the four source classes.
- `Pool`: the subscriber connection pool.
- `Repetition`: the `repeat` loop.
- `Protocol`: the connection handler.

The queue invariant `QueueModel.Consistent` says:
- indexed ids and pending ids are disjoint;
- both are at most the counter;
- no id is pending twice;
- every indexed id has a payload entry whose date is its score.

Receiving a payload preserves the invariant, and so does promotion. A fetch, an accept and a close-restore also preserve it.

Parameters stand for behaviour that is not modelled:
- The date parser of `new Date(s).getTime()` is a function `parse: string -> Option<int>`, with None for NaN.
- `toISOString` is a function `format: int -> string`.
- The memory figure is a string.
- The clock is a parameter `now`. The endless promotion loop becomes one pass per reading in a sequence of clock readings.

Where the code and its documented design disagree, the model follows the code:
- `accept` leaves the backup set. So a close after accept but without ACK re-queues the item. The documented design has accept clear the backup.
- A frame that is not a command, on a connection with no storer, only ends the connection. There is no `FAIL Unknown command` reply.
- `prepare` refuses an embargo time of 0 as well as negative times, because of `!getTime()`.
- A fetch never calls `reject`. `get` only rejects when it throws synchronously, and the item lookup never does that.

## Model

| member | source | states |
|---|---|---|
| Keys.GetName | lib/keys.js:14-16 | the key starts with the prefix and ends with ".__" and the name; with a truthy queue "." and the queue follow the prefix; its length is the sum of the parts |
| Keys.QueuedKeyLayout | lib/keys.js:14-16 | with a non-empty queue the key is the prefix, then "." and the queue, then ".__" and the name |
| Keys.GlobalKeyLayout | lib/keys.js:14-16 | with no queue the key is the prefix followed by ".__" and the name |
| Keys.EmptyQueueIsNoQueue | lib/keys.js:15 | the empty queue name is falsy and gives the same key as no queue |
| Keys.DistinctNamesDistinctKeys | lib/keys.js:15 | for a fixed prefix and queue, distinct names give distinct keys |
| Keys.QueuedKeysInjective | lib/keys.js:15 | for dot-free non-empty queues, equal keys mean the same queue and the same name |
| Keys.LockKey | lib/inpender.js:73-75 | the lock key is the prefix followed by ".__requeueLock2:" and the queue |
| Keys.LockKeysDistinct | lib/inpender.js:74 | distinct queues never share a lock key |
| Text.TrimStart | lib/storer.js:17-18 | the result is a suffix of the input |
| Text.TrimStartSpec | lib/storer.js:17-18 | the cut-off head is all white space and the result does not start with white space |
| Text.TrimEnd | lib/storer.js:17-18 | the result is a prefix of the input |
| Text.TrimEndSpec | lib/storer.js:17-18 | the cut-off tail is all white space and the result does not end with white space |
| Text.TrimCut | lib/storer.js:17-18 | trim keeps one slice s[i..j], with only white space before i and from j on |
| Text.TrimSpec | lib/storer.js:17-18 | trim cuts white space only, from both ends, and leaves none at either end |
| Text.TrimIdempotent | lib/storer.js:17-18 | trimming twice is trimming once |
| Text.TrimBare | lib/index.js:105 | a word without surrounding white space is its own trim |
| Text.Split | lib/storer.js:11 | a split has at least one piece, even for the empty string |
| Text.JoinSplit | lib/storer.js:11 | joining the pieces of a split on the separator restores the string |
| Text.SplitPieces | lib/storer.js:11-13 | no piece holds the separator; there is one more piece than separators |
| Text.SplitJoin | lib/storer.js:11 | splitting a join of separator-free pieces recovers the pieces |
| Text.SplitHead | lib/index.js:105 | the first piece of a split is the text before the first separator |
| Text.FirstSeparator | lib/keys.js:15 | a string with a separator after a separator-free head determines the head and the rest |
| Text.LastSeparator | lib/index.js:125 | a string cut at a separator with no separator after it is cut uniquely |
| Text.OccursIffIn | lib/getter.js:30 | the separator count is positive exactly when the separator occurs |
| Text.DigitChar | lib/stats.js:69 | the character of a decimal digit is a digit character whose offset from "0" is the digit |
| Text.NatToString | lib/stats.js:69 | the decimal text of a number is non-empty and all digits |
| Text.DecimalRoundTrip | lib/stats.js:69 | reading a number's decimal text back gives the number |
| Text.NatToStringInjective | lib/stats.js:69 | distinct numbers have distinct decimal texts |
| Text.NatToStringCanonical | lib/stats.js:69 | the decimal text has no leading zero, and starts with "0" only for zero |
| QueueModel.EmptyConsistent | lib/storer.js:29-36 | a queue with no keys satisfies the queue invariant |
| QueueModel.ConsistentCapacity | lib/storer.js:32-35 | in a consistent queue, index size plus list length and the payload count are each at most the counter |
| QueueModel.FirstExists | lib/stats.js:25-31 | every non-empty set of indexed ids has a least one by score, then id |
| QueueModel.First | lib/stats.js:25-31 | the chosen id precedes every other id of the set |
| QueueModel.AscendingSpec | lib/inpender.js:82 | the ordering of a set has its ids exactly once each, sorted by score |
| QueueModel.Due | lib/inpender.js:82 | the due ids are indexed ids |
| QueueModel.Ready | lib/inpender.js:81-83 | the ready ids are exactly the indexed ids scored in [0, now], each once, ascending, as many as the due ids |
| QueueModel.Received | lib/storer.js:29-36 | a received item takes id counter + 1, is indexed under its date and stored with its date and data; the list is unchanged |
| QueueModel.ReceivedFresh | lib/storer.js:32-35 | a received item gets id counter + 1, which no index, list or payload id used; the list is unchanged |
| QueueModel.ReceivedConsistent | lib/storer.js:29-36 | receiving a payload preserves the queue invariant |
| QueueModel.ReceivedAllIds | lib/storer.js:32-35 | the k-th of a run of received payloads gets id counter + k with its date and data; other ids are untouched |
| QueueModel.IdsStartAtOne | lib/storer.js:32 | a queue's ids run 1, 2, 3 and so on, one per received payload |
| QueueModel.MoveItem | lib/inpender.js:90-95 | the id is appended to the list and leaves the index; payload and counter are unchanged |
| QueueModel.Promote | lib/inpender.js:103-107 | moving a run of ids extends the list by their number and keeps its old prefix; the index only shrinks; payload and counter are unchanged |
| QueueModel.PromoteEffect | lib/inpender.js:90-95 | moving a run of ids appends it to the list and removes exactly those ids from the index |
| QueueModel.PromoteSnoc | lib/inpender.js:103-105 | moving one more id is one more RPUSH and ZREM |
| QueueModel.PromoteDue | lib/inpender.js:97-107 | a pass extends the list by the number of due ids, keeping its old prefix; the index only shrinks; payload and counter are unchanged |
| QueueModel.PromoteDueSpec | lib/inpender.js:97-107 | a pass appends the ready ids in range order; the index keeps exactly the ids not due, with their scores; payload and counter are unchanged |
| QueueModel.ElemsCard | lib/inpender.js:103-105 | a list with no repeats has as many elements as its length |
| QueueModel.RemoveKeysCard | lib/inpender.js:93 | removing present keys shrinks the index by their number |
| QueueModel.PromoteConserves | lib/inpender.js:90-95 | moving distinct indexed ids conserves index size plus list length |
| QueueModel.PromoteDueConserves | lib/inpender.js:97-107 | a pass conserves index size plus list length |
| QueueModel.MovedConsistent | lib/inpender.js:90-95 | appending distinct indexed ids to the list and removing them from the index preserves the queue invariant |
| QueueModel.PromoteConsistent | lib/inpender.js:90-95 | moving distinct indexed ids preserves the queue invariant |
| QueueModel.PromoteDueConsistent | lib/inpender.js:97-107 | a pass preserves the queue invariant |
| QueueModel.FirstLive | lib/getter.js:10-24 | the position of the first pending id with a payload entry; every id before it has none |
| QueueModel.FetchNext | lib/getter.js:10-24 | a fetch changes only the list, never lengthens it, and any item it returns is a payload entry |
| QueueModel.FetchNextSpec | lib/getter.js:10-24 | fetching drops the orphan ids before the first live one, returns its entry and leaves the list after it |
| QueueModel.DropConsistent | lib/getter.js:12-16 | dropping ids from the head of the list preserves the queue invariant |
| QueueModel.FetchNextConsistent | lib/getter.js:10-24 | fetching preserves the invariant; the item is its payload entry and its id is neither indexed nor left pending |
| Store.Store.SAdd | lib/storer.js:30 | the queue joins the directory; re-adding changes nothing |
| Store.Store.Incr | lib/storer.js:32 | the counter goes up by one and the new value is returned |
| Store.Store.HmSet | lib/storer.js:34 | the payload entry of the item's id is written with all three fields |
| Store.Store.ZAdd | lib/storer.js:35 | the id is indexed with the given score |
| Store.Store.RPush | lib/getter.js:72 | the id is appended to the list tail |
| Store.Store.BLPop | lib/getter.js:12 | the list head is removed and returned; an empty list yields nothing and is unchanged |
| Store.Store.HGetAll | lib/getter.js:13 | the entry of an id, present exactly when the payload table holds it |
| Store.Store.Del | lib/getter.js:51 | the payload entry is removed |
| Store.Store.MoveToList | lib/inpender.js:91-94 | RPUSH and ZREM of one id as one step |
| Store.Store.RangeByScore | lib/inpender.js:82 | exactly the ids scored in [0, now], each once, ascending |
| Store.Store.FirstByScore | lib/stats.js:25-33 | the lowest-scored id, and none exactly when the index is empty |
| Store.Store.ZCount | lib/stats.js:9 | the number of indexed ids |
| Store.Store.LLen | lib/stats.js:17 | the length of the pending list |
| Store.Store.Members | lib/queues.js:14-16 | every directory queue exactly once |
| Store.Store.Lock | lib/inpender.js:73-75 | a lock is granted exactly when nobody holds it, with the lease asked for |
| Store.Store.Unlock | lib/inpender.js:108 | the lock is released |
| Producer.ParseStore | lib/storer.js:10-27 | an accepted command has a strictly positive embargo |
| Producer.ParseThreeWords | lib/storer.js:11-26 | three space-free words are accepted exactly when the trimmed date parses to a positive time; the queue is the trimmed second word; otherwise the error is InvalidDate with the trimmed token |
| Producer.AcceptedIsThreeWords | lib/storer.js:11-15 | an accepted message is exactly three space-free words joined by single spaces |
| Producer.WrongArityRefused | lib/storer.js:13-15 | a message without exactly two spaces is refused as InvalidCommand |
| Producer.Storer.Prepare | lib/storer.js:10-27 | succeeds exactly when the command parses, recording its queue and date; otherwise it gives the parse error; a wrong arity keeps the old fields, a bad date leaves the trimmed queue and the parsed date recorded |
| Producer.Storer.Receive | lib/storer.js:29-36 | the queue joins the directory, and its data becomes the received-item transition of the old data |
| Consumer.FetchQueue | lib/getter.js:28-33 | a queue is read exactly when the message has a second token |
| Consumer.FetchQueueOfCommand | lib/getter.js:30 | for `FETCH q` the queue is q trimmed |
| Consumer.AfterAccept | lib/getter.js:49-55 | accept removes the backed-up id's payload entry and keeps every other entry as it was; list, index and counter are unchanged; with no backup nothing changes |
| Consumer.AfterReject | lib/getter.js:57-60 | as intended, reject appends the backed-up id to the list and clears the backup; payload, index and counter are unchanged |
| Consumer.RejectAsWritten | lib/getter.js:58 | the as-written reject: a failure on the unbound queue name, with backup and queue as they were; its content is the contrast with the intended reject stated by Consumer.RejectDiscrepancy |
| Consumer.AfterClose | lib/getter.js:69-79 | a close with a backup appends its id to the list and writes its payload entry back, keeping every other entry as it was; the index is unchanged; without a backup nothing changes |
| Consumer.RejectDiscrepancy | lib/getter.js:57-60 | reject as written fails and leaves the backup set and the list unchanged; as intended it appends the id, clears the backup and keeps payload and index |
| Consumer.CloseWithoutAckRequeues | lib/index.js:129-134 | fetch, accept and close without ACK put the id back at the list tail and restore the payload table |
| Consumer.RedeliveredAfterClose | lib/index.js:175-178 | when the fetched item was the last pending one, the next fetch after such a close returns the same item |
| Consumer.AckedItemIsCommitted | lib/index.js:142-148 | after accept and ACK the close is a no-op and the item is gone from list, index and payload table |
| Consumer.AcceptConsistent | lib/getter.js:49-55 | fetching then accepting preserves the invariant |
| Consumer.CloseConsistent | lib/getter.js:69-79 | a close that returns an accepted item preserves the invariant |
| Consumer.Getter.constructor | lib/getter.js:3-8 | a new getter holds no backup |
| Consumer.Getter.Prepare | lib/getter.js:28-33 | the queue is the second token, trimmed; a message without one fails; the backup is kept |
| Consumer.Getter.NextPendingItem | lib/getter.js:10-24 | the result and the new queue data are those of the fetch function; other queues are untouched |
| Consumer.Getter.Get | lib/getter.js:35-47 | the fetched item becomes the backup and its data is returned |
| Consumer.Getter.Accept | lib/getter.js:49-55 | the backed-up item's payload entry is deleted and the backup kept; fails with no backup |
| Consumer.Getter.Reject | lib/getter.js:57-60 | as intended: the backed-up id is appended to the list and the backup cleared; fails with no backup |
| Consumer.Getter.Ack | lib/getter.js:62-67 | the backup is cleared and the store untouched |
| Consumer.Getter.Close | lib/getter.js:69-79 | with a backup, the id is pushed back and its entry rewritten, and the return is reported; without one, nothing changes |
| Promoter.PromoteRounds | lib/inpender.js:116-128 | repeated passes keep the old list as a prefix and leave payload and counter unchanged |
| Promoter.PromoteRoundsSnoc | lib/inpender.js:116-128 | one more pass after a run of passes is one more promotion |
| Promoter.PromoteRoundsInvariant | lib/inpender.js:116-128 | any number of passes keeps the invariant, conserves index size plus list length and leaves payloads and counter alone |
| Promoter.NothingEarly | lib/inpender.js:81-83 | an id a pass makes pending was indexed with a score in [0, now] |
| Promoter.Inpender.GetReadyItems | lib/inpender.js:81-83 | the ids due at now, each once, ascending by score |
| Promoter.Inpender.MoveItemToPending | lib/inpender.js:90-95 | one id moves from the index to the list tail in one step |
| Promoter.Inpender.MoveAllToPending | lib/inpender.js:103-107 | moving the given ids one by one applies the promotion function to the queue and leaves other queues, the directory and the locks alone |
| Promoter.Inpender.MoveQueueToPending | lib/inpender.js:97-109 | with the queue's lock free, a pass promotes exactly the due ids and releases the lock; with the lock held nothing changes; other queues are untouched |
| Promoter.Inpender.MoveToPending | lib/inpender.js:116-124 | every directory queue whose lock is free is promoted, and others are untouched |
| Promoter.Inpender.Run | lib/inpender.js:116-128 | repeated passes promote each free directory queue once per clock reading |
| Reporter.NextOf | lib/stats.js:23-44 | none exactly when the index is empty; a date is the payload date of the least indexed id; a stall means that id has no payload entry |
| Reporter.NextIsEarliest | lib/stats.js:23-44 | in a consistent queue `next` is none exactly when nothing is delayed, never stalls, and is the earliest embargo |
| Reporter.CountLine | lib/stats.js:68-69 | a count line starts with its label |
| Reporter.CountLineDigits | lib/stats.js:68-69 | after the label come only digits, and they read back as the count |
| Reporter.Block | lib/stats.js:68-76 | each queue gives three lines |
| Reporter.Blocks | lib/stats.js:59-77 | three lines per queue |
| Reporter.BlocksAt | lib/stats.js:68-76 | queue k's future, queued and next lines sit at positions 3k, 3k + 1 and 3k + 2 |
| Reporter.AllSettleIff | lib/stats.js:33-38 | the report settles exactly when no queue's upcoming lookup stalls |
| Reporter.ConsistentQueuesSettle | lib/stats.js:33-38 | over consistent queues the report is always produced |
| Reporter.SettlesListed | lib/stats.js:33-38 | over a listing of the directory, all lookups settle exactly when the store settles |
| Reporter.ConsistentStoreSettles | lib/stats.js:33-38 | a store whose directory queues are all consistent always settles |
| Reporter.Total | lib/stats.js:73-74 | the total is at least each listed queue's future plus queued count, and 0 over no queues |
| Reporter.PrefixStep | lib/stats.js:59-77 | one more queue adds its three lines and its future plus queued count to the total |
| Reporter.CountLineReadsBack | lib/stats.js:68-81 | the numbers after the future, queued and total labels read back as those counts |
| Reporter.ReportLayout | lib/stats.js:57-82 | memory line first, queue k's lines after 3k + 1 others, the total line last |
| Reporter.Stats.FutureCount | lib/stats.js:7-13 | the number of indexed ids |
| Reporter.Stats.WaitingCount | lib/stats.js:15-21 | the length of the pending list |
| Reporter.Stats.NextUpcomingItem | lib/stats.js:23-44 | the next date of the queue, none exactly when the index is empty |
| Reporter.Stats.QueueLines | lib/stats.js:59-77 | a queue's block is produced exactly when its lookup does not stall, and then it is the three report lines; the count is future plus queued |
| Reporter.Stats.GetStats | lib/stats.js:51-85 | the memory line, three lines per queue in listing order and the total of future plus queued; produced exactly when no lookup stalls |
| Pool.Acquire | lib/index.js:76-88 | with idle clients the last one is popped and nothing is connected; with none a fresh client is connected |
| Pool.AcquireIssuesUnused | lib/index.js:76-88 | the acquired client is not in use and leaves the idle stack; it is the last idle client, or a fresh one when none is idle |
| Pool.ReleaseReturnsToPool | lib/index.js:180-186 | releasing a client in use keeps the pool free of clients in use |
| Pool.Release | lib/index.js:180-186 | a release pushes the client exactly when the pool is below the minimum, never takes it past the minimum, and otherwise changes nothing |
| Pool.AcquireReleaseRoundTrip | lib/index.js:76-88 | releasing the client just popped from a pool within its cap restores the pool |
| Pool.PreFillSpec | lib/index.js:229-234 | pre-filling n clients pushes the next n fresh clients in order |
| Pool.PreFillWellFormed | lib/index.js:229-234 | pre-filling keeps the idle clients distinct and issued by the pool |
| Repetition.Repeat | lib/repeat.js:6-10 | the callback runs once per index 0 to times - 1 in increasing order, never when times <= 0, and the state is those calls applied in turn |
| Protocol.Verb | lib/index.js:105 | the command word holds no space and no white space at either end |
| Protocol.ActionOf | lib/index.js:105-165 | each command word selects its own handler, exactly |
| Protocol.VerbIsFirstWord | lib/index.js:105 | the command word is the first word, trimmed, whatever follows |
| Protocol.DispatchFirstWord | lib/index.js:105-165 | a frame is dispatched on its first word |
| Protocol.CommandsDispatch | lib/index.js:105-152 | STATS, STORE, FETCH and ACK lines reach their own handlers, with or without arguments |
| Protocol.DispatchOtherwiseData | lib/index.js:154-164 | a frame goes to the payload branch exactly when its first word is none of the four commands |
| Protocol.Key | lib/index.js:125 | the registry key is the remote address, a colon and the port's digits |
| Protocol.KeyInjective | lib/index.js:125 | distinct remote ends have distinct registry keys |
| Protocol.StatsHeader | lib/index.js:201-204 | four header lines: healthy first and memory last |
| Protocol.StatsHeaderCounts | lib/index.js:202-203 | the subscriber and idle-connection lines carry their labels followed by digits that read back as those counts |
| Protocol.Reply | lib/index.js:110 | a reply always ends with a newline |
| Protocol.Connection.constructor | lib/index.js:96-102 | a new connection has been sent OK, is open, and holds no storer or getter |
| Protocol.TimeCapsule.PreFill | lib/index.js:229-234 | one connect-and-push per pre-fill round; from an empty pool it holds exactly the minimum of distinct clients |
| Protocol.TimeCapsule.AcquireClient | lib/index.js:76-88 | pops the last idle client or connects a new one; never grows the pool |
| Protocol.TimeCapsule.ReleaseClient | lib/index.js:180-186 | pushes the client only below the minimum, keeping the pool within it |
| Protocol.TimeCapsule.OnConnection | lib/index.js:96-102 | a new connection is greeted with OK and holds no storer or getter |
| Protocol.TimeCapsule.GetStats | lib/index.js:194-213 | health, subscriber count, idle pool size and memory lines, then the report over the directory queues |
| Protocol.TimeCapsule.OnStats | lib/index.js:106-112 | when some directory queue's lookup stalls nothing is written and the connection stays open; otherwise exactly one reply is written, the header and report over a listing of the directory joined by newlines and newline-terminated, and the connection ends; store, registry and pool are unchanged |
| Protocol.TimeCapsule.OnStore | lib/index.js:114-120 | a valid STORE installs a storer with its queue and date and replies OK; otherwise replies FAIL with the reason, keeps no storer and ends |
| Protocol.TimeCapsule.AnswerStore | lib/index.js:117-118 | a passed prepare keeps the storer and sends OK; a failed one drops it, sends FAIL with the reason and ends |
| Protocol.TimeCapsule.Serve | lib/index.js:128-138 | prepare, OK, fetch, write and accept; the item stays backed up; a missing queue ends the connection |
| Protocol.TimeCapsule.Deliver | lib/index.js:131-134 | sends OK, fetches, writes the item and accepts it: the queue becomes the accept of the fetch, the item is backed up, other queues are untouched |
| Protocol.TimeCapsule.OnFetch | lib/index.js:122-140 | the socket is registered under its key and a new getter takes a client from the pool; without a queue the connection ends with nothing written and no payload touched; otherwise OK and the fetched item are written, the item is accepted and stays backed up, no other queue changes and the connection stays open; the directory, the locks and the storer slot are unchanged |
| Protocol.TimeCapsule.OnAck | lib/index.js:142-152 | ACK clears the getter's backup when there is one, writes nothing and ends the connection; store, registry and pool are unchanged |
| Protocol.TimeCapsule.OnPayload | lib/index.js:154-164 | with a prepared storer the frame is received into its queue, the queue joins the directory and OK is written; without one nothing is stored or written; the connection ends either way |
| Protocol.TimeCapsule.OnData | lib/index.js:104-166 | each frame has exactly its own handler's effect: STATS the stats reply, STORE the parse answer, FETCH the registration and fetch, ACK the acknowledgement, anything else the payload branch; only FETCH touches the registry, the pool and the getter slot (a fresh getter), only STORE the storer slot, and no frame touches the locks |
| Protocol.TimeCapsule.OnClose | lib/index.js:172-191 | the getter's close runs, its client is released under the cap, and the registry entry goes |

## Left out

- Sockets, TCP listening and Redis client creation are left out as I/O: lib/server.js, lib/redis.js, lib/logger.js, lib/prometheusServer.js and bin/timecapsule.js. Logging is dropped everywhere.
- lib/config.js is left out; it is a `lodash.merge` over defaults. The prefix and `minRedisClientSubscriberPool` are plain parameters.
- Promise interleavings are not modelled. Each Redis command or MULTI is one atomic step in program order. That covers `Promise.all` in the promoter, the stats and the start-up, and the un-awaited queue passes of `moveToPending`.
- Reporter.Stats.GetStats: the blocks come in listing order. In the source each queue's block is pushed when its own lookups complete (lib/stats.js:60-77), and a queue with a delayed item waits for one more HGETALL (lib/stats.js:34), so for a listing [A with a delayed item, B with none] B's block can come first. The completion order still names every directory queue once, so it is one of the listings Protocol.TimeCapsule.OnStats allows; the model does not say which listing the completions produce.
- Cross-process races and the indefinite wait of BLPOP are not modelled. A blocking pop on an empty list yields no result.
- Redlock's lease expiry, drift, retry and jitter are not modelled. A lock is a map entry that is granted only when absent, and a refused lock skips the queue for that pass.
- The sleep of `moveToPending` is not modelled. `Run` does one pass per given clock reading, so it covers finitely many passes of the endless loop.
- Promoter.Inpender.MoveToPending: one clock reading serves every queue of a pass. The source reads the clock separately for each queue in `_getReadyItems` (lib/inpender.js:82), so a later queue of the same pass may see a later time.
- JavaScript `Date` parsing and `toISOString` are parameters.
- The process memory figure is a string parameter. It comes from floating-point heap arithmetic.
- Equal scores: Redis orders them by member bytes, and the model orders them by numeric id. The two differ only between ids of different length, for example "10" and "9".
- Store.Store: queue names are the identity of the per-queue structures. So two queues whose key names collide through a '.' in the name are not modelled as sharing keys. Keys.QueuedKeysInjective states when key names are distinct.
- Keys.GetName: the prefix is a parameter. The source reads `redis.namespaces` while the configuration defines `redis.namespace` (lib/keys.js:15 against lib/config.js:23), so as written the prefix is undefined. `Array.prototype.join` renders an undefined element as the empty string, so the keys as written are those of `GetName` with the prefix "".
- Protocol.TimeCapsule.OnStore: it replies OK after a successful prepare, and on a failure it replies FAIL with the error text, keeps no storer and ends. As written, `prepare` returns nothing and `.then` on its result throws (lib/index.js:118), so OK is never sent. A refused line throws to the process handler and leaves an unprepared storer behind.
- Protocol.TimeCapsule.OnPayload: it ends the connection after OK. As written it only names `sock.end` without calling it (lib/index.js:160).
- Protocol.TimeCapsule.Serve: a failed prepare ends the connection and stops. As written the rejection is swallowed, and the chain goes on to write `undefined` and to call accept, which fails (lib/index.js:132-134).
- Protocol.TimeCapsule.GetStats: it includes the memory line. As written, `getMemoryUsage` does not exist (the method is `getMemoryUsuage`, lib/index.js:204), so the call throws and no report is produced.
- The promoter's constructor arity mismatch is not modelled. lib/index.js:239 passes four arguments to a five-parameter constructor (lib/inpender.js:20), so the configuration lands in the Redlock client slot and `config` is undefined. Reading `config.redlock` (lib/inpender.js:28) then throws a TypeError inside the `Promise.all` callback of lib/index.js:236-239, so the connection handler of lib/index.js:242 is never registered: as written, neither promotion nor any protocol handling runs. The model takes the store and the prefix and models the intended start-up.
- The two start-up connections (publisher and promoter, lib/index.js:226) are not modelled; they are client plumbing. Only the pool pre-fill is modelled.
- Protocol.TimeCapsule.OnClose: it assumes the close event runs once per connection. It does not model `redisClient.end(false)` for a client it does not keep.
- A second FETCH on the same connection replaces the getter, as in the source. The earlier getter's client is never released. The model keeps that behaviour and proves nothing about the leak.
- Protocol.TimeCapsule.Valid: it carries only the pool cap. That idle clients are distinct and issued by the pool (`Pool.WellFormed`) is proved about pool values, by Pool.AcquireIssuesUnused, Pool.ReleaseReturnsToPool and Pool.PreFillWellFormed, and not kept as a class invariant across handlers.
- Repetition.Repeat: the count is an integer. A JavaScript count may be fractional: a count of 2.5 runs the callback for 0, 1 and 2. The model covers integral counts only.
- The `uncaughtException` handler, the socket `end` and `write` callbacks and the keep-alive bytes are left out.

## Findings

| source | as written | input that shows it | evidently intended | confidence | as-written member | corrected member |
|---|---|---|---|---|---|---|
| lib/getter.js:58 | `reject` pushes to the list key of an unbound `queue`, which throws a ReferenceError before the backup is cleared | any `reject` while an item is backed up | append the backed-up id to the tail of `this._queue`'s list and clear the backup | high, not executed | Consumer.RejectAsWritten (lemma Consumer.RejectDiscrepancy) | Consumer.Getter.Reject, Consumer.AfterReject |

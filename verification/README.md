# A verified model of the 6.5840 labs

A Dafny model of the parts of this repository that decide something: the versioned key/value service and
what is built on it, shard rebalancing, and MapReduce. `dafny verify dfyconfig.toml` checks all of it.

## The key/value service

`KVServer` is a map of versioned values with conditional writes. Clerks call it over a network that drops
requests, drops replies, and may run a handler after the call it belongs to has been given up.

- `KvServer`, `Clerks` - the server object, and the clerk's two retry loops as loops.
- `Network` - clerks, messages and the server as one step system. `Operations` - the same system seen from the
  clients: operations that begin, are executed any number of times, and return. Every step of the first is a
  step of the second (`Network.StepSim`), so everything below is proved once, on operations, and holds of
  every run of the network.
- `ClerkRuns` - what the answers of `Put` mean. `Linearizability`, `LinearOrder`, `LinearLimits` - every
  history has a linearization that `KvModel` accepts, and where that stops being true.
- `Lock`, `LockSafety`, `LockEffects`, `CriticalSection` - the lock, mutual exclusion, what each of its Puts has done
  to the server's table when it returns, and the lock test's client.
- `Leadership`, `LeaderSafety` - the leadership lock of the shard controller.
- `AppendCheck`, `Appends`, `PutCheck`, `Puts` - the two client workloads of the test library with their final
  checks: the checks as methods, and the proof that every run passes them.

Clients are modelled as programs whose next clerk call is a function of their local state, so the theorems
quantify over every number of clients and every interleaving with the network.

## Shard rebalancing

`ShardConfigs.ShardConfig` is the configuration object with its array and map; `Rebalance` is proved equal to
the function `Rebalanced`, about which the rest is proved: the counts come out as floor or ceiling, no balanced
assignment moves fewer shards, no shard moves twice, joins only move shards to new groups, leaves only move the
shards of departed groups, and every sequence of accepted calls keeps the configuration sound. The number of
shards is any n below 257, the value that `analyze` uses as "more than any count".

## MapReduce

- `Coordination` - what each critical section of the coordinator does to its fields. `Coordinators` - the
  coordinator object, proved to do that. `ExactlyOnce` - every run of the coordinator, with crashes, timeouts,
  late reports and failing file operations. `Shutdown` - when it may stop and when a task is given up, said of
  the calls that workers made.
- `Wire`, `Names`, `Files` - the text form of pairs, file names, and the shared directory.
- `Work` - `runMapTask` and `runReduceTask` as loops over a directory object. `Sequential` - mrsequential.
- `Cluster` - the whole job as one step system: the coordinator, the directory, and workers that write one
  pair, read one file or write one line at a time and may stop anywhere. `MapSide`, `ReduceSide`,
  `ReduceSteps`, `ReduceRuns` - its invariants. `PairBags`, `SameOutput` - the equivalence theorem.
  `ReduceLimits` - why it excludes reduce timeouts. `WordCount` - an application that meets its conditions.
- `Results`, `WordTotals` - what the files contain at the end, said without the functions that compute it: the
  pairs of the inputs by the remainder of their key's hash, `key result` lines made of all values of a key, and
  for word count the number of times each word occurs in the input texts.

The hash is an arbitrary function, the clock an arbitrary function of the entry looked at, and the iteration
order of every Go map an arbitrary choice.

## Where the code falls short of a property

- A Put that names a version its key has not reached, and whose handler runs after the call was given up,
  breaks linearizability: `LinearLimits.FutureLateNotLinearizable` has the run.
- The test's model has no case for a Put answered ErrNoKey: `LinearLimits.AcceptedExactly` says that a finished
  history passes exactly if there is none.
- `IsMember` is right exactly while there are between 1 and n groups: `ShardHistory.IsMemberExact`.
- The text form carries exactly the clean pairs: `Wire.RoundTrip`.
- If the rename of a finished reduce task fails, `Done` still answers true: `ExactlyOnce.DoneLoses` says when,
  `ExactlyOnce.LossHappens` has the run.
- With no input files the job never finishes: `ExactlyOnce.NoInputs`.
- The temporary output of a reduce task carries no task id, so an attempt that has timed out and its
  replacement write to the same file: `ReduceLimits.TimeoutDoubles` has a run for every one-pair job.

## Model

| member | source | states |
|---|---|---|
| KvServer.KVServer.Get | src/kvsrv1/server.go:42-53 | answers the stored value and version, or ErrNoKey |
| KvServer.KVServer.Put | src/kvsrv1/server.go:59-84 | OK iff the version is the stored one, or 0 for a missing key; then the value is stored at the next version; ErrVersion and ErrNoKey for the other two cases, and nothing changes |
| Clerks.Clerk.Get | src/kvsrv1/client.go:24-44 | retries exactly while RPCs fail; the answer is the server's at the moment of the RPC that came back, and no try writes |
| Clerks.Clerk.Put | src/kvsrv1/client.go:56-80 | the answer is the server's reply to the request that came back, taken from the table just before it, except that it is ErrMaybe iff that reply is ErrVersion and the request was a resend; whatever is lost and whatever others write in between, the Put is applied at most once; OK means once, ErrVersion and ErrNoKey never |
| Network.StepSim | src/labrpc/labrpc.go:231-322 | every step of clerks, lossy network and server (drop the request, run the handler, drop the reply, give up while the handler may still run) is a step of the operation-level system with its invariant |
| Network.ServerAgrees | src/kvsrv1/server.go:42-84 | the table and the history of applied writes give the same answer to every call |
| Operations.StepInv | src/kvsrv1/client.go:24-80 | every step keeps: writes belong to Puts conditional on exactly their version, a Put was applied iff some request of it was answered OK, and only permitted answers are returned |
| ClerkRuns.OnePerVersion | src/kvsrv1/server.go:59-84 | in a whole run at most one request per key and version is applied, whichever clerks send them |
| ClerkRuns.VersionCountsPuts | src/kvsrv1/server.go:59-84 | at every moment of every run a key's version is its initial version plus the number of Puts applied to it |
| ClerkRuns.PutMeaning | src/kvsrv1/client.go:56-80 | over the whole run: OK means exactly one request of the call is applied, and before it returned; ErrVersion means none ever is, even later; otherwise at most one |
| KvModel.Partition | src/models1/kv.go:27-43 | one group per key, in key order, each group the history's operations on that key in their order: nothing lost, doubled or reordered |
| LinearOrder.Linearizable | src/kvsrv1/client.go:24-80 | from an empty server, for any clerks and any losses, every history in which each Put names a version already reached or is not handled late has a linearization: real-time order, each key's part legal in the model, Gets with the right version |
| LinearLimits.AcceptedExactly | src/models1/kv.go:49-67 | such a finished history can be arranged for the test's model iff no Put in it was answered ErrNoKey |
| LinearLimits.NoKeyRejected | src/models1/kv.go:57-63 | the model rejects every arrangement with a Put answered ErrNoKey |
| LinearLimits.FutureLateNotLinearizable | src/labrpc/labrpc.go:263-287 | a run with a Put from the future handled late whose history has no linearization at all |
| Lock.LockObject.constructor | src/kvsrv1/lock/lock.go:22-34 | the version that MakeLock ends with, for every answer to its Get and Put |
| Lock.LockObject.TryAcquire | src/kvsrv1/lock/lock.go:42-71 | asks to write "1" at the version read iff it read a value other than "1"; succeeds iff that Put got OK, with the version read plus one |
| Lock.LockObject.Acquire | src/kvsrv1/lock/lock.go:36-40 | stops at the first attempt that read a free lock and got OK, with that version plus one; every earlier attempt failed |
| Lock.LockObject.Release | src/kvsrv1/lock/lock.go:73-79 | asks to write "0" at the version held and advances the version whatever the answer; that this frees the lock is LockEffects.ReleaseFrees |
| LockSafety.MutualExclusion | src/kvsrv1/lock/lock.go:22-79 | in every run, under loss, retries and late handlers, at most one client holds the lock, and while it does the server stores "1" at exactly its version |
| LockEffects.ReleaseFrees | src/kvsrv1/lock/lock.go:73-79 | in every run, when the Put of Release by a client that held the lock at version v returns, the answer is OK or ErrMaybe and that very Put has replaced "1" at version v by "0" in the server's table: a release releases |
| LockEffects.AcquireTakes | src/kvsrv1/lock/lock.go:42-71 | when the Put of an attempt returns, the version it read is gone; after OK that very Put stored "1" over another value, after ErrVersion none of its requests is ever applied; ErrNoKey cannot happen |
| LockEffects.MakeCreates | src/kvsrv1/lock/lock.go:22-34 | when the Put of MakeLock returns the lock key exists, and after OK that very Put created it with "0" |
| CriticalSection.NoFatal | src/kvsrv1/lock/lock_test.go:21-61 | in every run of the lock test's clients no check fails: a holder reads "" from "l0" and both its Puts there return OK or ErrMaybe |
| CriticalSection.DataMeans | src/kvsrv1/lock/lock_test.go:21-61 | while a client is inside, the server holds "" when it has read, its own string between its two Puts at the next version, and "" when it leaves |
| Leadership.LeaderLock.AcquireLeadership | src/shardkv1/shardctrler/lock/lock.go:24-43 | returns at the first round in which the lock was free and the Put got OK, or ErrMaybe and the re-read found the id, with the version after the one read or the one re-read; failing rounds leave `ver` alone |
| Leadership.LeaderLock.ReleaseLeadership | src/shardkv1/shardctrler/lock/lock.go:48-58 | asks to write "" at the version its Get found, and ErrMaybe counts as OK |
| LeaderSafety.LeadershipSafe | src/shardkv1/shardctrler/lock/lock.go:24-58 | in every run with distinct ids, released by holders: at most one leader, the server stores its id at `lk.ver`, and a stored id always belongs to a controller that is acquiring, holding or releasing |
| LeaderSafety.LeaderVersion | src/shardkv1/shardctrler/lock/lock.go:24-58 | both ways of becoming leader set `lk.ver` to the version read before the Put plus one; a release returns only OK |
| LeaderSafety.ReleaseClears | src/shardkv1/shardctrler/lock/lock.go:48-58 | when the Put of ReleaseLeadership returns, that very Put has replaced the controller's id by "" |
| AppendCheck.CheckAppends | src/kvtest1/kvtest.go:331-360 | passes iff numbers increase per client, length + 1 is the version, skips are at most Nmaybe, and the last number + 1 is at most Nok + Nmaybe |
| AppendCheck.Scan | src/kvtest1/kvtest.go:331-348 | fails iff some client's numbers do not increase; otherwise both maps hold each client's next number and its skips |
| Appends.AppendsPass | src/kvtest1/kvtest.go:297-360 | after every run of any number of appending clients that are between items, CheckAppends passes on what the server stores; no client's own check ever fails |
| Appends.AppendsStay | src/kvtest1/kvtest.go:297-322 | the stored list only ever grows at its end |
| Appends.AppendsTallied | src/kvtest1/kvtest.go:297-322 | Nok and Nmaybe are the numbers of calls that were answered OK and ErrMaybe |
| PutCheck.CheckPutConcurrent | src/kvtest1/kvtest.go:103-116 | adds up the reports and passes iff the version is at most Nok + Nmaybe, or equals Nok on a reliable network |
| Puts.PutsPass | src/kvtest1/kvtest.go:184-258 | in every run of any number of putting clients the version is the number of Puts applied; between Puts it lies between Nok and Nok + Nmaybe and equals Nok if no call failed; "Wrong error" and "Wrong value" are unreachable |
| Puts.OwnValue | src/kvtest1/kvtest.go:192-196 | after an OK, a Get that finds the next version finds the client's own value: the stronger check that the code's `&&` does not make |
| Puts.PutsTallied | src/kvtest1/kvtest.go:233-258 | Nok and Nmaybe are the numbers of Puts that were answered OK and ErrMaybe, except one that the client has yet to follow by its Get |
| ShardConfigs.ShardConfig.Analyze | src/shardkv1/shardcfg/shardcfg.go:80-111 | whatever the order of the map, the most and least loaded groups with ties to the smallest gid, or the initial values if there is no group |
| ShardConfigs.ShardConfig.LeastLoaded | src/shardkv1/shardcfg/shardcfg.go:115-118 | the least loaded group |
| ShardConfigs.ShardConfig.Rebalance | src/shardkv1/shardcfg/shardcfg.go:122-154 | terminates, computes `Rebalanced` in place, and logs every move: no shard moves twice |
| ShardConfigs.ShardConfig.Join | src/shardkv1/shardcfg/shardcfg.go:156-181 | accepts iff the groups are new, some, and share no server with each other or the old ones, whatever the order of the map; then adds exactly them |
| ShardConfigs.ShardConfig.Leave | src/shardkv1/shardcfg/shardcfg.go:183-202 | accepts iff the gids are some, distinct and present; then removes exactly them |
| ShardConfigs.ShardConfig.JoinBalance | src/shardkv1/shardcfg/shardcfg.go:204-207 | the accepted groups added and the shards rebalanced over the new set; rejected, no shard moves |
| ShardConfigs.ShardConfig.LeaveBalance | src/shardkv1/shardcfg/shardcfg.go:209-212 | the gids removed and the shards rebalanced over the rest; rejected, no shard moves |
| ShardConfigs.ShardConfig.GidServers | src/shardkv1/shardcfg/shardcfg.go:214-218 | the owner of a shard and its servers, and whether there are any |
| ShardConfigs.ShardConfig.IsMember | src/shardkv1/shardcfg/shardcfg.go:220-227 | whether the gid owns a shard |
| ShardConfigs.ShardConfig.CheckConfig | src/shardkv1/shardcfg/shardcfg.go:229-270 | passes iff the groups are the wanted ones, every shard has a member as owner, and counts differ by at most one |
| ShardBalance.MoveOneSquares | src/shardkv1/shardcfg/shardcfg.go:139-153 | a move from the most to the least loaded group, two or more apart, lowers the sum of squared counts: the loop ends |
| ShardOptimal.RebalancedIsGreedy | src/shardkv1/shardcfg/shardcfg.go:122-154 | from any assignment, with some group: every shard on a member, balanced, groups only lose or only gain, and no group that lost ends below one that gained |
| ShardOptimal.MoveIsFirst | src/shardkv1/shardcfg/shardcfg.go:139-153 | the shard that the loop moves is still where it started |
| ShardOptimal.BalancedCounts | src/shardkv1/shardcfg/shardcfg.go:122-154 | in a balanced assignment every count is the floor or the ceiling of shards over groups |
| ShardMoves.MinimalMovement | src/shardkv1/shardcfg/shardcfg.go:122-154 | from any assignment, no balanced assignment to the same groups changes fewer owners |
| ShardMoves.JoinMovesIntoNew | src/shardkv1/shardcfg/shardcfg.go:204-207 | from a balanced configuration a shard that moves goes to a group that joined |
| ShardMoves.LeaveMovesOnlyOrphans | src/shardkv1/shardcfg/shardcfg.go:209-212 | from a balanced configuration exactly the shards of departed groups move |
| ShardHistory.HistoryIsSound | src/shardkv1/shardcfg/shardcfg.go:156-212 | after every sequence of accepted calls: Num counts them, no server in two groups, all shards owned and balanced, or all on gid 0 without groups |
| ShardHistory.EveryShardServed | src/shardkv1/shardcfg/shardcfg.go:214-218 | GidServers succeeds for every shard iff there is a group |
| ShardHistory.IsMemberExact | src/shardkv1/shardcfg/shardcfg.go:220-227 | IsMember holds exactly for the groups iff there are between 1 and n of them |
| ShardHistory.HistoryPassesCheck | src/shardkv1/shardcfg/shardcfg.go:229-270 | every configuration of a history passes CheckConfig for its own groups |
| Coordinators.Coordinator.constructor | src/mr/coordinator.go:69-78 | one idle map entry per input, counters and phase as at the start |
| Coordinators.Coordinator.RegisterWorker | src/mr/coordinator.go:80-86 | a new worker under the next number |
| Coordinators.Coordinator.GetTask | src/mr/coordinator.go:88-106 | hands out the first idle entry with its files and nReduce and marks it with the time and the worker, or says that none is idle |
| Coordinators.Coordinator.TaskDone | src/mr/coordinator.go:117-163 | late reports have their files removed; others are completed, their files renamed up to the first failure, counted if that succeeded, and the last one starts the next phase |
| Coordinators.Coordinator.CreateReduceTasks | src/mr/coordinator.go:173-199 | one entry per bucket that occurs among the finished files, holding all files of that bucket, in any order of buckets |
| Coordinators.Coordinator.TimeoutTasks | src/mr/coordinator.go:248-263 | entries out of time are marked and each gets one idle replacement at the end; all else stays |
| Coordinators.Coordinator.Done | src/mr/coordinator.go:220-246 | the timeouts; then true iff nothing is open in the reduce phase, or no worker is running in the shutdown phase; and the intermediate files, and no others, deleted exactly when it is true |
| Coordinators.Coordinator.Heartbeat | src/mr/coordinator.go:279-287 | tells a worker to stop, and records it, exactly in the shutdown phase |
| ExactlyOnce.InvStep | src/mr/coordinator.go:88-287 | every step keeps the bookkeeping invariant, whatever is late and whichever renames fail |
| ExactlyOnce.OneEntryEach | src/mr/coordinator.go:117-263 | at every moment of every run each input and each partition has exactly one entry that is not timed out, and each counter is the number of open entries plus the reports whose renames failed |
| ExactlyOnce.HandedOutOnce | src/mr/coordinator.go:88-115 | no entry is handed out twice in a run |
| ExactlyOnce.PhasesAdvance | src/mr/coordinator.go:117-163 | phases only advance, and what is to be reduced is settled once |
| ExactlyOnce.DoneMeansDone | src/mr/coordinator.go:220-287 | when Done is true or a worker is told to stop, nothing is open and every input and every partition has exactly one completed entry |
| Shutdown.DoneInShutdown | src/mr/coordinator.go:220-287 | in every run, in the shutdown phase Done is true iff every worker registered so far has since made a heartbeat in that phase |
| Shutdown.TimesOutExactly | src/mr/coordinator.go:248-263 | in every run, Done gives up an entry iff it is in progress more than 10 seconds after the GetTask that handed it out; there is then a new idle entry for the same files |
| ExactlyOnce.DoneLoses | src/mr/coordinator.go:220-246 | Done is true with output lost iff it is true in the reduce phase with something to reduce |
| ExactlyOnce.LossHappens | src/mr/coordinator.go:149-155 | a run in which a failed rename leads to that |
| ExactlyOnce.NoInputs | src/mr/coordinator.go:69-78 | without inputs no run ever leaves the map phase |
| ExactlyOnce.PartitionExact | src/mr/coordinator.go:173-199 | every finished file is in exactly one group, and two files share a group iff they share a bucket |
| Wire.RoundTrip | src/mr/worker.go:100-152 | reading back what was written gives exactly the pairs, in order, iff every pair is clean: no newline or ":::" in key or value, no leading space or trailing colon in the key, no trailing space in the value |
| Names.BucketPart | src/mr/coordinator.go:181-186 | `parts[3]` of an intermediate file's name is its bucket number |
| Names.SameBucketPart | src/mr/coordinator.go:181-186 | two intermediate files have the same `parts[3]` iff they are of the same bucket |
| Names.RenamedText | src/mr/coordinator.go:204-210 | removing "temp" from a name gives the final name of the same task and bucket |
| Names.TextInjective | src/mr/worker.go:101-102 | different files of a job have different names |
| Names.DecMeans | src/mr/worker.go:102 | numbers in names and counts are written in decimal without leading zeros |
| Names.GlobFinds | src/mr/coordinator.go:174 | the pattern finds the finished intermediate files and no other file of the job |
| Work.RunMapTask | src/mr/worker.go:82-119 | whichever inputs can be read: the file of every bucket b grows by exactly the lines `key:::value` of the pairs with hash(key) % nReduce == b, in order, and no other file changes; succeeds iff all inputs are there, and reports the file of b iff there is such a pair |
| Work.WritePairsIs | src/mr/worker.go:100-115 | each bucket file of a map task grows by exactly the lines of the pairs with hash(key) % nReduce equal to its bucket, in order, and no other file changes |
| Work.RunReduceTask | src/mr/worker.go:121-170 | succeeds iff all files are there and every line has a separator; then the bucket's output file grows by one line `key result` per key read, the result being reducef of all values of the key in reading order, in any order of keys, and nothing else changes |
| Work.GroupedIs | src/mr/worker.go:133-153 | the map that the reading loop builds has exactly the keys read, each with all its values in order |
| Sequential.Program | src/main/mrsequential.go:38-84 | fails iff an input is missing; otherwise writes one line `key result` for each key of the inputs in ascending order, the result being reducef of all values of the key as some sort arranges them |
| Sequential.SortByKey | src/main/mrsequential.go:59 | a sorted permutation |
| Sequential.WriteGroups | src/main/mrsequential.go:68-84 | for any pairs: one line per longest run of equal keys, made of the key and reducef of the values of the run in order |
| Sequential.OneLinePerKey | src/main/mrsequential.go:68-84 | on sorted pairs that is one line `key result` for every key, in ascending order, the result being reducef of all values of the key |
| Results.SequentialOutput | src/main/mrsequential.go:38-84 | the sequential output has one line `key result` for each key of the inputs in ascending order, made of exactly the values that the inputs give to the key |
| Cluster.BooksStep | src/mr/coordinator.go:88-287 | every step of the whole job is a step of the coordinator's machine, keeps its invariant, and a worker is at work iff it was given an entry and has not reported |
| MapSide.MapInvStep | src/mr/worker.go:82-119 | every step of the whole job keeps: temporary map files hold exactly what their worker has written, finished ones exist for completed tasks alone |
| MapSide.IntermediateFiles | src/mr/coordinator.go:117-217 | at every moment of every run until Done is true the finished intermediate files are exactly the whole outputs of the completed map tasks; abandoned, timed-out and late attempts leave none |
| ReduceSteps.FileParses | src/mr/worker.go:135-153 | a finished file is there when a reduce worker reads it and reads back as the pairs that went into it |
| ReduceRuns.ReduceInvHolds | src/mr/worker.go:121-170 | in every run without reduce timeouts the reduce tasks are made of exactly the finished files, one task per bucket, and an output file with its final name has one line for every key of its bucket |
| Results.OutputFile | src/mr/worker.go:121-170 | for any clean job, when Done is true after a run without reduce timeouts: the output file of bucket b has one line `key result` for each key of the inputs with hash(key) % nReduce == b, the result being reducef of exactly the values the inputs give to the key; no intermediate file is left |
| PairBags.BucketPairs | src/mr/worker.go:100-118 | from the end of the map phase the pairs of a bucket's files are, up to order, those of all inputs with hash(key) % nReduce equal to the bucket: every key is reduced in one place with all its values |
| Results.FinishedFiles | src/mr/worker.go:97-118 | in every run from the end of the map phase until Done is true: each input has one entry, whose file for bucket b holds exactly the lines `key:::value` of that input's pairs with hash(key) % nReduce == b and is missing if there are none; there are no other intermediate files |
| SameOutput.FinalState | src/mr/coordinator.go:220-263 | when Done is true nothing had just timed out: it found every entry closed |
| SameOutput.SequentialLines | src/main/mrsequential.go:59-84 | for an order-insensitive reduce function the sequential output has one line per key however the sort arranges equal keys |
| SameOutput.SameAsSequential | src/mr/worker.go:82-170 | for every interleaving of workers, crashes, map timeouts and late reports without reduce timeouts: when Done is true the lines of all output files are those of the sequential program, as multisets |
| ReduceLimits.TimeoutDoubles | src/mr/worker.go:155-167 | for every job with one clean pair a run with one reduce timeout in which Done is true and every line of the output is doubled |
| WordCount.WordCountClean | src/mrapps/wc.go:19-32 | word count emits only clean pairs, whatever the inputs |
| WordCount.WordCountInsensitive | src/mrapps/wc.go:37-40 | its reduce function does not depend on the order of the values |
| WordCount.WordCountSame | src/mrapps/wc.go:19-40 | so distributed and sequential word count write the same lines |
| WordTotals.FieldsCount | src/mrapps/wc.go:19-32 | the words found in a text are, each as often, the longest runs of letters in it, counted place by place in the text |
| WordTotals.DistributedCounts | src/mrapps/wc.go:19-40 | when Done is true after a run of word count without reduce timeouts, the output files have exactly one line `w k` for each word w that occurs in the inputs, k being how often it occurs in their texts, and no other line |
| WordTotals.SequentialCounts | src/mrapps/wc.go:19-40 | the same of the output of the sequential program, however its sort arranges equal keys |

## Left out

- Raft, kvraft, the rsm package and shardgrp, and the shard controller itself: their bodies are stubs.
- JSON, labgob and RPC encoding: stored values are an abstract type, strings, or the lists and records that the tests encode.
- 64-bit wrap-around of versions: versions are natural numbers.
- Bytes that are not UTF-8: text is a sequence of characters.
- Sockets, plugins, sleeping, printing, process exit, and the second that the coordinator's main program waits after Done.
- FNV hashing: the hash is any function.
- Liveness: nothing is said about Acquire returning or the job finishing.
- Loops that run until the network answers are bounded by the answers they are given, and are unbounded in the step systems.
- Input files that have the name of one of the job's own files, and a directory that holds such files at the start.
- Locking inside the coordinator: each handler is one step, Heartbeat too, though it takes no lock.
- LinearOrder.Linearizable: the condition on late Puts is sufficient, with a run that breaks it and linearizability, and is not shown necessary for every run.
- LeaderSafety.LeadershipSafe: a controller releases only what it holds; taking leadership from a deposed controller, the second use the code names, ends exclusion by design.
- Puts.PutsPass: all clients write one key, as with ka[0] and no random keys.
- ReduceRuns.ReduceInvHolds: says nothing once a reduce task has timed out; ReduceLimits has a run that shows why.
- SameOutput.SameAsSequential: a sufficient condition; some runs with a reduce timeout still produce the right output.
- Clerks.Clerk.Put: a handler that runs after the call has returned is in Network and ClerkRuns, not in this object.

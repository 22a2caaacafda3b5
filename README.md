# Block execution, consensus glue, startup checks and the pending pool

A Dafny model of four pieces of a permissioned blockchain node:

- **The virtual machine's block executor** (`processTransactionSet`). It runs
  the ordered transactions of a block one at a time. Each call runs against a
  fork of a block-level state cache. A transaction whose call throws an error
  marked `expected` is rejected and its fork is dropped. Any other error aborts
  the block. A completed call's modified keys are merged into the block cache.
  The result is the block cache's modified keys as a state diff, plus the
  processed/rejected split. The contract processor is a parameter: a function
  from the call and the state the fork shows to the outcome of the call.
- **The consensus adapter and handlers**:
  - `RPCConnector` is the Raft library's channel over gossip. It forwards an
    inbound message only when the message is unaddressed or addressed to this
    node. It wraps outbound messages in "consensus"/"RaftMessage" envelopes.
  - `RaftConsensus`'s event handlers start and stop the block builder on a
    leader election, and hand committed blocks to the builder. Commit failures
    are swallowed, and a leader restarts its builder after each commit. The
    handlers also route "RaftMessage" gossip to the connector and append built
    blocks to the log.
- **Startup status aggregation** (`mergeStartupStatuses`, `run`). It
  classifies child statuses as OK, PARTIALLY_OPERATIONAL or FAIL. If any check
  throws, the result is FAIL with that check's message.
- **The pending transaction pool**, modelled on the behaviour its tests
  assert:
  - admission rejects duplicate ids and stale timestamps;
  - each admitted transaction is broadcast over gossip;
  - the pending entries can be read as a snapshot;
  - a sweep removes expired entries.

Files:
- `types.dfy` holds the shared Option/Result types and the transaction record.
- `state_cache.dfy` holds the state cache, both as a value and as a class.
- `virtual_machine.dfy` holds the executor: a specification fold plus the
  imperative loop proved equal to it.
- `virtual_machine_properties.dfy` holds what the executor guarantees.
- `consensus.dfy` holds the consensus adapter and handlers.
- `startup_checks.dfy` holds startup status aggregation.
- `transaction_pool.dfy` holds the pool and the test scenarios that go with it.

The state cache's source is not part of this model. It is modelled as a base
map plus an ordered list of modified keys in which no key appears twice:
- re-setting a key replaces its value and keeps its position;
- a fork is a new cache whose base is the parent's current view.

## Model

| member | source | states |
|---|---|---|
| `VirtualMachine.ProcessTransactionSet` | projects/libs/core-library-typescript/src/virtual-machine/virtual-machine.ts:18-57 | The forking, merging loop over the block gives exactly the value of the specification fold `ProcessSpec`. That is: the first non-expected error, or the stateDiff of the block cache's modified keys with the processed and rejected lists. An empty block gives an empty stateDiff and empty lists. |
| `VirtualMachine.StateDiffRoundTrip` | projects/libs/core-library-typescript/src/virtual-machine/virtual-machine.ts:46 | The stateDiff holds one `{contractAddress, key, value}` per modified key, in the same order, and loses nothing: reading it back gives the modified list. |
| `VirtualMachine.CallContract` | projects/libs/core-library-typescript/src/virtual-machine/virtual-machine.ts:59-65 | `callContract` is the processor's `call` on the caller's sender, contract address and payload, and nothing else. |
| `VirtualMachineProperties.ProcessPartitionsInput` | projects/libs/core-library-typescript/src/virtual-machine/virtual-machine.ts:23-44 | On success the processed list is exactly the input transactions whose call completed, in the state the loop had reached before them, and the rejected list is exactly the others, both in input order. Their lengths add up to the input's, and together they hold each input transaction once (multiset). |
| `VirtualMachineProperties.AllCompletedNoneRejected` | projects/libs/core-library-typescript/src/virtual-machine/virtual-machine.ts:23-44 | With a processor whose calls always complete, the call never aborts, every transaction is processed in input order, and none is rejected. |
| `VirtualMachineProperties.SelectSplits` | projects/libs/core-library-typescript/src/virtual-machine/virtual-machine.ts:37-43 | The two selections of one marking have lengths adding up to the input's, and their multisets add up to the input's. |
| `VirtualMachineProperties.FoldPartition` | projects/libs/core-library-typescript/src/virtual-machine/virtual-machine.ts:23-44 | From any loop state, a successful loop only appends to the two lists: the remaining transactions whose call completed go to the processed list, the others to the rejected list, each in input order. |
| `VirtualMachineProperties.FoldPrependsLists` | projects/libs/core-library-typescript/src/virtual-machine/virtual-machine.ts:20-43 | What the loop does never depends on the lists built so far: it only appends to them. |
| `VirtualMachineProperties.StepPrependsLists` | projects/libs/core-library-typescript/src/virtual-machine/virtual-machine.ts:37-43 | The same, for one transaction. |
| `VirtualMachineProperties.FoldSingle` | projects/libs/core-library-typescript/src/virtual-machine/virtual-machine.ts:23 | The loop over a one-transaction block is one iteration. |
| `VirtualMachineProperties.FoldConcat` | projects/libs/core-library-typescript/src/virtual-machine/virtual-machine.ts:23-44 | Running the loop over `a + b` is running it over `a`, then over `b` from where it stopped, unless it aborted in `a`. |
| `VirtualMachineProperties.StepEffect` | projects/libs/core-library-typescript/src/virtual-machine/virtual-machine.ts:24-43 | The three outcomes of one transaction. A non-expected error aborts with exactly that error. An expected error appends the transaction to the rejected list and leaves the block cache and processed list as they were. A completed call appends it to the processed list and leaves the block cache showing the call's writes over its old view. The cache keeps its base and its modified keys as a prefix, gains exactly the written keys, and never lists a key twice. |
| `VirtualMachineProperties.FoldKeepsShape` | projects/libs/core-library-typescript/src/virtual-machine/virtual-machine.ts:19-42 | Over a whole successful run, the block cache keeps its base, only extends its modified keys, and keeps them distinct. If no transaction was processed, the cache is unchanged. |
| `VirtualMachineProperties.UnexpectedErrorAborts` | projects/libs/core-library-typescript/src/virtual-machine/virtual-machine.ts:32-34 | If every transaction before position `i` went through and transaction `i` threw a non-expected error `e`, the whole call fails with `e`, and there is no output. |
| `VirtualMachineProperties.FoldErrorHasCause` | projects/libs/core-library-typescript/src/virtual-machine/virtual-machine.ts:32-34 | From any loop state, an aborted loop has a position whose transaction threw that non-expected error after all earlier ones went through. |
| `VirtualMachineProperties.AbortHasCause` | projects/libs/core-library-typescript/src/virtual-machine/virtual-machine.ts:18-34 | Conversely, every failed call has such a position, so an error is returned only for a transaction's non-expected throw. |
| `VirtualMachineProperties.NextForkView` | projects/libs/core-library-typescript/src/virtual-machine/virtual-machine.ts:24-42 | After a completed transaction, the block cache, and so the next transaction's fork, shows that transaction's writes over what it saw. After a rejected one, the state is the one it saw, and it is added to the rejected list. |
| `VirtualMachineProperties.RejectedTransactionIsInert` | projects/libs/core-library-typescript/src/virtual-machine/virtual-machine.ts:32-42 | Removing a transaction rejected with an expected error from the block does not change whether the call succeeds, or the error. On success the stateDiff and the processed list are the same. The rejected list differs only by that transaction, at its place. |
| `VirtualMachineProperties.StateDiffIsNetEffect` | projects/libs/core-library-typescript/src/virtual-machine/virtual-machine.ts:19-46 | The stateDiff names each key once. Written in order into an empty state, it gives the block cache's final view. It is empty when nothing was processed. |
| `VirtualMachineProperties.TwoTransactionBlock` | projects/libs/core-library-typescript/src/virtual-machine/virtual-machine.ts:18-57 | Take a block of T1, which writes k = v, and T2, which is rejected, on empty state. It yields stateDiff `[k = v]`, processed `[T1]` and rejected `[T2]`. |
| `StateCaches.Cache.Fork` | projects/libs/core-library-typescript/src/virtual-machine/virtual-machine.ts:24 | A fork shows exactly what its parent shows and has modified nothing. |
| `StateCaches.SetView` | projects/libs/core-library-typescript/src/virtual-machine/virtual-machine.ts:26-30 | Setting a key in a cache makes readers see the new value at that key and changes nothing else. |
| `StateCaches.SetKeys` | projects/libs/core-library-typescript/src/virtual-machine/virtual-machine.ts:42-46 | Setting a key keeps the order of the modified keys and appends the key if it is new. The modified keys stay distinct. |
| `StateCaches.SetAllView` | projects/libs/core-library-typescript/src/virtual-machine/virtual-machine.ts:42 | Merging a list of modifications is seen as those writes applied to the cache's view in order, the last write to a key winning. |
| `StateCaches.SetAllKeys` | projects/libs/core-library-typescript/src/virtual-machine/virtual-machine.ts:42-46 | Merging keeps the old modified keys as a prefix, adds exactly the merged keys, and never lists a key twice. |
| `StateCaches.ApplyConcat` | projects/libs/core-library-typescript/src/virtual-machine/virtual-machine.ts:42 | Applying two lists of writes one after the other is applying their concatenation. |
| `StateCaches.ApplyReplace` | projects/libs/core-library-typescript/src/virtual-machine/virtual-machine.ts:42 | Replacing, in place, the value of an already-modified key has the effect of writing that key last. |
| `StateCaches.StateCache.constructor` | projects/libs/core-library-typescript/src/virtual-machine/virtual-machine.ts:19 | A new cache has the given base and no modified keys. |
| `StateCaches.StateCache.Fork` | projects/libs/core-library-typescript/src/virtual-machine/virtual-machine.ts:24 | `fork()` returns a new cache object whose value is the parent's fork. |
| `StateCaches.StateCache.Set` | projects/libs/core-library-typescript/src/virtual-machine/virtual-machine.ts:26-30 | A write by the processor updates the cache's value as `Cache.Set` says, keeping the keys distinct. |
| `StateCaches.StateCache.Merge` | projects/libs/core-library-typescript/src/virtual-machine/virtual-machine.ts:42 | `merge(ms)` sets each modification in order, so the new value is the old one with `ms` merged. |
| `Consensus.Forwarded` | projects/libs/core-library-typescript/src/consensus/raft-consensus.ts:31-36 | On node `id`, at most one event is emitted. An event is emitted iff the message has no `to` or its `to` is `id`, and it carries the origin and the message unchanged. |
| `Consensus.Dispatched` | projects/libs/core-library-typescript/src/consensus/raft-consensus.ts:166-172 | Only messageType "RaftMessage" reaches `received`, with the `from` and `data` read out of the delivered payload. Any other type causes nothing. |
| `Consensus.BroadcastDelivered` | projects/libs/core-library-typescript/src/consensus/raft-consensus.ts:38-48 | The channel hands `broadcast` a frame holding its origin and the protocol message. Suppose decoding inverts the serialisation. The broadcast envelope is in group "consensus", of type "RaftMessage", and immediate. Its decoded buffer, dispatched on any node, reaches that node's Raft library iff the message is unaddressed or addressed to it, and then with the frame's own origin and message. |
| `Consensus.SendDelivered` | projects/libs/core-library-typescript/src/consensus/raft-consensus.ts:50-61 | The unicast envelope has recipient `nodeId` and the same three fixed fields. Its decoded buffer, dispatched at that recipient, reaches its Raft library with the frame's own origin and message, unless the message is addressed to another node. |
| `Consensus.RPCConnector.constructor` | projects/libs/core-library-typescript/src/consensus/raft-consensus.ts:18-23 | A new connector has the given id, has sent nothing and has emitted nothing. |
| `Consensus.RPCConnector.Received` | projects/libs/core-library-typescript/src/consensus/raft-consensus.ts:31-36 | The emitted events grow by exactly `Forwarded(id, originNodeId, message)`: one `(originNodeId, message)` event iff `message.to` is absent or is this node's id, otherwise none. Nothing is sent. |
| `Consensus.RPCConnector.Broadcast` | projects/libs/core-library-typescript/src/consensus/raft-consensus.ts:38-48 | Exactly one gossip broadcast is made: group "consensus", type "RaftMessage", buffer the serialised frame, immediate. |
| `Consensus.RPCConnector.Send` | projects/libs/core-library-typescript/src/consensus/raft-consensus.ts:50-61 | Exactly one gossip unicast is made: recipient `nodeId` and the same three fixed fields. |
| `Consensus.RaftConsensus.constructor` | projects/libs/core-library-typescript/src/consensus/raft-consensus.ts:85-99 | The node owns a new connector under its node name. The builder is not running, and nothing has been committed or appended. |
| `Consensus.RaftConsensus.RoleChanged` | projects/libs/core-library-typescript/src/consensus/raft-consensus.ts:101-117 | The Raft library sets whether the node is leader. The invariant survives, since a changed role clears `synced`. |
| `Consensus.RaftConsensus.OnLeaderElected` | projects/libs/core-library-typescript/src/consensus/raft-consensus.ts:157-164 | Afterwards the builder runs iff the node is leader, and the invariant "once synced, running iff leader" holds. |
| `Consensus.RaftConsensus.OnCommitted` | projects/libs/core-library-typescript/src/consensus/raft-consensus.ts:130-155 | `commitBlock` is called exactly once with the committed block, and its failure does not propagate. Afterwards the builder runs iff it ran before or the node is leader. |
| `Consensus.RaftConsensus.OnMessageReceived` | projects/libs/core-library-typescript/src/consensus/raft-consensus.ts:166-172 | The connector's events grow by exactly `Dispatched(id, messageType, message)`. For "RaftMessage" that is what `received(message.from, message.data)` forwards, with `fromAddress` ignored. For any other type it is nothing. |
| `Consensus.RaftConsensus.OnNewBlockBuild` | projects/libs/core-library-typescript/src/consensus/raft-consensus.ts:174-178 | Exactly one entry `{block}` is appended to the log. |
| `Consensus.RaftConsensus.IsLeader` | projects/libs/core-library-typescript/src/consensus/raft-consensus.ts:188-190 | The answer is the Raft library's current role of the node, and nothing changes. |
| `StartupChecks.MergeStartupStatuses` | projects/libs/core-library-typescript/src/common-library/startup-check-runner.ts:25-45 | The two-flag loop returns exactly `Merged(name, startupStatuses)`: the given name, the input list unchanged as children, and the classified status. |
| `StartupChecks.MergedOkIff` | projects/libs/core-library-typescript/src/common-library/startup-check-runner.ts:30-40 | OK iff no child is non-OK, which includes no children at all. The result carries the name and the children unchanged. |
| `StartupChecks.MergedPartialIff` | projects/libs/core-library-typescript/src/common-library/startup-check-runner.ts:31-43 | PARTIALLY_OPERATIONAL iff some child is OK and some child is not, where any status other than OK counts as a failure. |
| `StartupChecks.MergedFailIff` | projects/libs/core-library-typescript/src/common-library/startup-check-runner.ts:44 | FAIL iff the list is non-empty and no child is OK. |
| `StartupChecks.MergedStatusIgnoresOrder` | projects/libs/core-library-typescript/src/common-library/startup-check-runner.ts:30-44 | Two child lists with the same elements, as multisets, give the same merged status. |
| `StartupChecks.SameElements` | projects/libs/core-library-typescript/src/common-library/startup-check-runner.ts:30-36 | Lists with the same elements agree on whether some child is OK and whether some child is not. |
| `StartupChecks.FirstError` | projects/libs/core-library-typescript/src/common-library/startup-check-runner.ts:17-19 | There is no error iff every check resolved. Otherwise the error is the message of a check that threw, with every earlier check resolved. |
| `StartupChecks.Run` | projects/libs/core-library-typescript/src/common-library/startup-check-runner.ts:14-23 | If some check threw, the result is `{status: FAIL, message}` with no name and no children, where the message is the first thrown one in checker order. If every check resolved, the result is the merge of their statuses in checker order under the runner's name. |
| `TransactionPool.Admission` | projects/libs/core-library-typescript/test/transaction-pool/pending-transaction-pool.spec.ts:53-78 | Admission succeeds iff the id is neither pending nor committed and the timestamp is within the window, and it then returns the transaction's id. A pending or committed id fails with "transaction with id ${id} already exists in the transaction pool". An expiry error is given only to a stale transaction. |
| `TransactionPool.UnexpiredMembers` | projects/libs/core-library-typescript/test/transaction-pool/pending-transaction-pool.spec.ts:91-103 | A sweep keeps exactly the entries whose transaction has not gone stale. |
| `TransactionPool.UnexpiredConcat` | projects/libs/core-library-typescript/test/transaction-pool/pending-transaction-pool.spec.ts:98-102 | Sweeping a list is sweeping each part, so kept entries stay in pool order. |
| `TransactionPool.SweepsCompose` | projects/libs/core-library-typescript/test/transaction-pool/pending-transaction-pool.spec.ts:98 | Sweeping at an earlier time and then at a later one is the same as sweeping once at the later time. |
| `TransactionPool.UnexpiredUnique` | projects/libs/core-library-typescript/test/transaction-pool/pending-transaction-pool.spec.ts:67-73 | A sweep never lists a transaction id twice. |
| `TransactionPool.PendingTransactionPool.constructor` | projects/libs/core-library-typescript/test/transaction-pool/pending-transaction-pool.spec.ts:51-56 | A new pool has no entries and has broadcast nothing, and its window is one the tests allow. |
| `TransactionPool.PendingTransactionPool.AddNewPendingTransaction` | projects/libs/core-library-typescript/test/transaction-pool/pending-transaction-pool.spec.ts:58-78 | The result is `Admission` of the old entries. On success the entry `(id, tx, now)` is appended and `tx` is broadcast once. On failure nothing changes. Ids stay unique. |
| `TransactionPool.PendingTransactionPool.GetAllPendingTransactions` | projects/libs/core-library-typescript/test/transaction-pool/pending-transaction-pool.spec.ts:100-102 | A snapshot of the pending entries in the order they were added. |
| `TransactionPool.PendingTransactionPool.ClearExpiredTransactions` | projects/libs/core-library-typescript/test/transaction-pool/pending-transaction-pool.spec.ts:98 | The new entries are exactly the unexpired old ones, in order. Ids stay unique. |
| `TransactionPool.NewTransactionIsAdded` | projects/libs/core-library-typescript/test/transaction-pool/pending-transaction-pool.spec.ts:58-65 | After one fresh transaction is added to an empty pool, the pool has exactly one entry, that transaction, which was broadcast once. |
| `TransactionPool.IdenticalTransactionIsProcessedOnce` | projects/libs/core-library-typescript/test/transaction-pool/pending-transaction-pool.spec.ts:67-73 | The first add returns the transaction's id. The second add of the same transaction fails with "transaction with id ${txid} already exists in the transaction pool", naming that id. |
| `TransactionPool.ExpiredTransactionIsNotAdded` | projects/libs/core-library-typescript/test/transaction-pool/pending-transaction-pool.spec.ts:75-78 | A transaction stamped ten minutes before now is refused as expired, and the pool stays empty. |
| `TransactionPool.ExpiredTransactionIsCleared` | projects/libs/core-library-typescript/test/transaction-pool/pending-transaction-pool.spec.ts:91-103 | tx1 is added, ten minutes pass, tx2 is added and the pool is swept. Exactly one entry is left, and it is tx2. |

## Left out

- The Raft algorithm (elections, terms, quorum, log replication) belongs to a third-party library. Whether the node is leader is an input (`RoleChanged`). `append` is recorded in a log list and not replicated.
- The block builder is represented only by a running flag and the list of `commitBlock` calls, each kept with the Raft index of the "committed" event that made it. Its polling, building and committing are not part of this model.
- The contract processor, state storage and the state cache implementation are not part of this model. The processor is a function parameter. Any reads of committed storage happen inside it.
- StateCaches.StateCache.Fork copies the parent's view into the child. A fork that keeps a live reference to its parent would let later parent writes show through. The executor never writes to the parent while a fork is in use, so the two agree there.
- The frame the Raft library hands to `broadcast` and `send` is taken to carry the `from` and `data` fields that `onMessageReceived` reads out of the decoded buffer. The gossip service that delivers the buffer is not part of this model.
- JSON and `Buffer` serialisation and `JsonBuffer.parseJsonWithBuffers` are left out. Serialisation is a function parameter of the connector. The deserialisation in `onCommitted` is taken to give back the block unchanged.
- All logging, and the timing measurements in `onCommitted`, are left out: the executor's error logs, the connector's debug logs and the handlers' info logs. They have no effect on state.
- Promises and event-emitter scheduling are left out. Every handler is one atomic step, and `onCommitted` is modelled as running to completion before the next event.
- Consensus.RaftConsensus.OnCommitted restarts the builder on a leader and leaves a follower's builder as it was. It does not stop it, since the code has no `stop` on that path. So "running iff leader" holds after a commit only once an election has been handled since the last role change; that is the `Valid` invariant.
- StartupChecks.Run settles on the first throwing check in checker order. `Promise.all` rejects with whichever check rejects first in time, which this model does not represent. When exactly one check throws, the two agree.
- `connect`, `disconnect`, `initialize` and `shutdown` are left out. The first two are empty, and the others only delegate to collaborators that are not part of this model.
- The concrete transaction id derivation, the committed transaction pool and the clock are parameters. `ExpiredTransactionIsCleared` takes the ids of two transactions with different timestamps to differ.
- TransactionPool.Admission checks for a duplicate before it checks expiry. The tests do not show the order for a transaction that is both duplicate and stale. The expiry error's text is not asserted by the tests, so the model carries only the id.
- The freshness window value is not fixed by the tests. The model allows any window `W` with `0 < W <= 10 minutes`. A transaction is stale at `now` iff `timestamp + W <= now`.
- The sweep (`Unexpired`) works on the transaction header's timestamp, not on the entry's arrival time `addedAt`, which is stored but not read. The tests cannot tell the two apart, because in them a transaction arrives at its own timestamp.
- The per-peer gossip of the pool is recorded as a list of broadcast transactions. The envelope it uses is not asserted by the tests.
- The hard-coded contracts, the block storage service, the service servers, the HTTP gateway and the sidechain connector are not part of this model.

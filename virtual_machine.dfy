/**
  The virtual machine's block executor. `processTransactionSet` walks the
  ordered transactions one at a time: it forks the block-level state cache,
  runs the transaction's contract call against the fork, and then
  - records the transaction as rejected and drops the fork when the call threw
    an error marked `expected`,
  - aborts the whole call with the error when the call threw any other error,
  - merges the fork's modified keys into the block cache and records the
    transaction as processed when the call completed.
  The result is the block cache's modified keys as a state diff, with the
  processed/rejected split.

  The contract processor is a parameter: a function from the call and the state
  the fork shows it to the outcome of the call. Reads of committed storage are
  inside that function.
*/
module VirtualMachine {
  import opened Types
  import opened StateCaches

  /** The three fields of a transaction the contract processor is called with. */
  datatype ContractCall = ContractCall(sender: string, payload: string, contractAddress: string)

  function CallOf(tx: Transaction): ContractCall
  {
    ContractCall(tx.header.sender, tx.body.payload, tx.body.contractAddress)
  }

  /** An error thrown by the processor; `expected` marks a business-rule rejection. */
  datatype ExecError = ExecError(expected: bool, message: string)

  /**
    What running one call against a fork does: it completes, having written
    `writes` into the fork in order, or it throws after writing `writesBeforeThrow`.
  */
  datatype Execution =
    | Completed(writes: seq<Modified>)
    | Threw(error: ExecError, writesBeforeThrow: seq<Modified>)

  type Processor = (ContractCall, Store) -> Execution

  datatype StateDiffEntry = StateDiffEntry(contractAddress: string, key: string, value: Value)

  datatype Output = Output(
    stateDiff: seq<StateDiffEntry>,
    processedTransactions: seq<Transaction>,
    rejectedTransactions: seq<Transaction>)

  /** The stateDiff of a list of modified keys: one entry per key, in the same order. */
  function StateDiff(ms: seq<Modified>): seq<StateDiffEntry>
  {
    seq(|ms|, i requires 0 <= i < |ms| => StateDiffEntry(ms[i].key.contractAddress, ms[i].key.key, ms[i].value))
  }

  /** Reads a stateDiff back as a list of modified keys. */
  function DiffAsModified(d: seq<StateDiffEntry>): seq<Modified>
  {
    seq(|d|, i requires 0 <= i < |d| => Modified(StateKey(d[i].contractAddress, d[i].key), d[i].value))
  }

  /** A stateDiff loses nothing of the modified keys it was built from. */
  lemma StateDiffRoundTrip(ms: seq<Modified>)
    ensures DiffAsModified(StateDiff(ms)) == ms
  {
  }

  /** The loop's state: the block cache and the two lists built so far. */
  datatype Run = Run(cache: Cache, processed: seq<Transaction>, rejected: seq<Transaction>)

  /** Every call starts from a fresh, empty block cache and empty lists. */
  const Start := Run(Empty, [], [])

  /** Does executing one call abort the block with error `e`? */
  predicate Aborts(x: Execution, e: ExecError)
  {
    x.Threw? && !x.error.expected && x.error == e
  }

  /** One iteration of the loop, on values. */
  function Step(run: Run, tx: Transaction, process: Processor): Result<Run, ExecError>
  {
    var fork := run.cache.Fork();
    match process(CallOf(tx), fork.View())
    case Threw(err, _) =>
      if err.expected then Ok(Run(run.cache, run.processed, run.rejected + [tx]))
      else Err(err)
    case Completed(writes) =>
      Ok(Run(run.cache.SetAll(fork.SetAll(writes).modified), run.processed + [tx], run.rejected))
  }

  /** The loop over the remaining transactions `txs`, from loop state `run`. */
  function Fold(txs: seq<Transaction>, process: Processor, run: Run): Result<Run, ExecError>
    decreases |txs|
  {
    if txs == [] then Ok(run)
    else
      match Step(run, txs[0], process)
      case Err(e) => Err(e)
      case Ok(next) => Fold(txs[1..], process, next)
  }

  function Finish(run: Run): Output
  {
    Output(StateDiff(run.cache.modified), run.processed, run.rejected)
  }

  /** What `processTransactionSet` promises, as a function of its input. */
  function ProcessSpec(txs: seq<Transaction>, process: Processor): Result<Output, ExecError>
  {
    match Fold(txs, process, Start)
    case Err(e) => Err(e)
    case Ok(run) => Ok(Finish(run))
  }

  method ProcessTransactionSet(orderedTransactions: seq<Transaction>, process: Processor)
    returns (r: Result<Output, ExecError>)
    ensures r == ProcessSpec(orderedTransactions, process)
    ensures orderedTransactions == [] ==> r == Ok(Output([], [], []))
  {
    var stateCache := new StateCache(map[]);
    var processedTransactions: seq<Transaction> := [];
    var rejectedTransactions: seq<Transaction> := [];
    var i := 0;
    while i < |orderedTransactions|
      invariant 0 <= i <= |orderedTransactions|
      invariant stateCache.Valid()
      invariant Fold(orderedTransactions[i..], process, Run(stateCache.Value(), processedTransactions, rejectedTransactions))
             == Fold(orderedTransactions, process, Start)
    {
      var transaction := orderedTransactions[i];
      assert orderedTransactions[i..][0] == transaction;
      assert orderedTransactions[i..][1..] == orderedTransactions[i + 1..];
      var transactionScopeStateCache := stateCache.Fork();
      var execution := process(CallOf(transaction), transactionScopeStateCache.View());
      match execution {
        case Threw(err, partial) =>
          // the fork may hold the writes made before the throw; it is dropped
          transactionScopeStateCache.Merge(partial);
          if !err.expected {
            return Err(err);
          }
          rejectedTransactions := rejectedTransactions + [transaction];
        case Completed(writes) =>
          transactionScopeStateCache.Merge(writes);
          stateCache.Merge(transactionScopeStateCache.GetModifiedKeys());
          processedTransactions := processedTransactions + [transaction];
      }
      i := i + 1;
    }
    assert StateDiff([]) == [];
    r := Ok(Output(StateDiff(stateCache.GetModifiedKeys()), processedTransactions, rejectedTransactions));
  }

  /** `callContract`: the processor's read-only `call` on the same three fields. */
  function CallContract<R>(call: ContractCall -> R, sender: string, contractAddress: string, payload: string): (r: R)
    ensures r == call(ContractCall(sender, payload, contractAddress))
  {
    call(ContractCall(sender, payload, contractAddress))
  }
}

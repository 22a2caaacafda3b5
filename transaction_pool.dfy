/**
  The pending transaction pool, as its tests describe it. A new transaction is
  admitted unless its id is already pending or committed (the error names the
  id) or its timestamp is outside the freshness window; an admitted transaction
  is stored under its id and broadcast over gossip, and its id is returned. The
  pending entries can be read as a snapshot, and a sweep removes every entry
  whose transaction has gone stale.

  The transaction id derivation, the committed pool and the clock are
  parameters: `txId`, `committedHas` and the `now` argument of each call. The
  freshness window is a parameter too, bounded by what the tests require of it:
  a transaction stamped now is fresh, one stamped ten minutes ago is not.
*/
module TransactionPool {
  import opened Types

  type TxId = string

  /** Ten minutes in milliseconds. */
  const TenMinutes: int := 60 * 1000 * 10

  /** A pending transaction, the id it is stored under and when it was added. */
  datatype PendingEntry = PendingEntry(id: TxId, transaction: Transaction, addedAt: Timestamp)

  datatype AdmissionError =
    | DuplicateTransaction(message: string)
    | ExpiredTransaction(id: TxId)

  function DuplicateMessage(id: TxId): string
  {
    "transaction with id " + id + " already exists in the transaction pool"
  }

  /** Has `tx` gone stale at time `now` under the freshness window? */
  predicate IsExpired(tx: Transaction, now: Timestamp, window: int)
  {
    tx.header.timestamp + window <= now
  }

  /** The freshness windows the tests allow. */
  predicate ValidWindow(window: int)
  {
    0 < window <= TenMinutes
  }

  function IdsOf(entries: seq<PendingEntry>): seq<TxId>
  {
    seq(|entries|, i requires 0 <= i < |entries| => entries[i].id)
  }

  predicate UniqueIds(entries: seq<PendingEntry>)
  {
    forall i, j :: 0 <= i < j < |entries| ==> entries[i].id != entries[j].id
  }

  /** The outcome of admitting `tx` at time `now` next to the pending entries `pending`. */
  function Admission(pending: seq<PendingEntry>, committedHas: TxId -> bool, txId: Transaction -> TxId,
                     window: int, tx: Transaction, now: Timestamp): (r: Result<TxId, AdmissionError>)
    ensures r.Ok? <==> (txId(tx) !in IdsOf(pending) && !committedHas(txId(tx)) && tx.header.timestamp + window > now)
    ensures r.Ok? ==> r.value == txId(tx)
    ensures txId(tx) in IdsOf(pending) || committedHas(txId(tx)) ==>
              r == Err(DuplicateTransaction("transaction with id " + txId(tx) + " already exists in the transaction pool"))
    ensures r.Err? && r.error.ExpiredTransaction? ==> IsExpired(tx, now, window) && r.error.id == txId(tx)
  {
    var id := txId(tx);
    if id in IdsOf(pending) || committedHas(id) then Err(DuplicateTransaction(DuplicateMessage(id)))
    else if IsExpired(tx, now, window) then Err(ExpiredTransaction(id))
    else Ok(id)
  }

  /** The entries a sweep at time `now` keeps, in their order. */
  function Unexpired(entries: seq<PendingEntry>, now: Timestamp, window: int): seq<PendingEntry>
    decreases |entries|
  {
    if entries == [] then []
    else if IsExpired(entries[0].transaction, now, window) then Unexpired(entries[1..], now, window)
    else [entries[0]] + Unexpired(entries[1..], now, window)
  }

  /** A sweep keeps exactly the entries that have not gone stale. */
  lemma {:induction false} UnexpiredMembers(entries: seq<PendingEntry>, now: Timestamp, window: int)
    ensures forall e :: e in Unexpired(entries, now, window) <==> e in entries && !IsExpired(e.transaction, now, window)
    decreases |entries|
  {
    if entries != [] {
      UnexpiredMembers(entries[1..], now, window);
      assert forall e :: e in entries <==> e == entries[0] || e in entries[1..];
    }
  }

  /** Sweeping a list is sweeping its parts, so the order of the kept entries is the pool's order. */
  lemma {:induction false} UnexpiredConcat(a: seq<PendingEntry>, b: seq<PendingEntry>, now: Timestamp, window: int)
    ensures Unexpired(a + b, now, window) == Unexpired(a, now, window) + Unexpired(b, now, window)
    decreases |a|
  {
    if a == [] {
      assert a + b == b;
    } else {
      assert (a + b)[0] == a[0];
      assert (a + b)[1..] == a[1..] + b;
      UnexpiredConcat(a[1..], b, now, window);
    }
  }

  /** A later sweep removes everything an earlier one did, so sweeping twice is sweeping at the later time. */
  lemma {:induction false} SweepsCompose(entries: seq<PendingEntry>, earlier: Timestamp, later: Timestamp, window: int)
    requires earlier <= later
    ensures Unexpired(Unexpired(entries, earlier, window), later, window) == Unexpired(entries, later, window)
    decreases |entries|
  {
    if entries != [] {
      SweepsCompose(entries[1..], earlier, later, window);
    }
  }

  /** A sweep never lists an id twice. */
  lemma {:induction false} UnexpiredUnique(entries: seq<PendingEntry>, now: Timestamp, window: int)
    requires UniqueIds(entries)
    ensures UniqueIds(Unexpired(entries, now, window))
    decreases |entries|
  {
    if entries != [] {
      var rest := entries[1..];
      assert UniqueIds(rest);
      UnexpiredUnique(rest, now, window);
      if !IsExpired(entries[0].transaction, now, window) {
        var kept := Unexpired(rest, now, window);
        UnexpiredMembers(rest, now, window);
        forall j | 0 <= j < |kept| ensures kept[j].id != entries[0].id {
          assert kept[j] in rest;
          var k :| 0 <= k < |rest| && rest[k] == kept[j];
          assert entries[k + 1] == kept[j];
        }
      }
    }
  }

  /** The pool of one node. */
  class PendingTransactionPool {
    const txId: Transaction -> TxId
    const committedHas: TxId -> bool
    const window: int
    var pending: seq<PendingEntry>
    /** Every transaction broadcast over gossip, in order. */
    var gossipBroadcasts: seq<Transaction>

    /** The window is one the tests allow, entries sit under their own ids, and no id is pending twice. */
    ghost predicate Valid()
      reads this
    {
      && ValidWindow(window)
      && UniqueIds(pending)
      && forall i :: 0 <= i < |pending| ==> pending[i].id == txId(pending[i].transaction)
    }

    constructor (txId: Transaction -> TxId, committedHas: TxId -> bool, window: int)
      requires ValidWindow(window)
      ensures Valid()
      ensures this.txId == txId && this.committedHas == committedHas && this.window == window
      ensures pending == [] && gossipBroadcasts == []
    {
      this.txId := txId;
      this.committedHas := committedHas;
      this.window := window;
      pending := [];
      gossipBroadcasts := [];
    }

    /** Admits `tx` at time `now`: stores and broadcasts it and returns its id, or refuses it and changes nothing. */
    method AddNewPendingTransaction(tx: Transaction, now: Timestamp) returns (r: Result<TxId, AdmissionError>)
      requires Valid()
      modifies this`pending, this`gossipBroadcasts
      ensures Valid()
      ensures r == Admission(old(pending), committedHas, txId, window, tx, now)
      ensures r.Ok? ==> pending == old(pending) + [PendingEntry(r.value, tx, now)]
                        && gossipBroadcasts == old(gossipBroadcasts) + [tx]
      ensures r.Err? ==> pending == old(pending) && gossipBroadcasts == old(gossipBroadcasts)
    {
      var id := txId(tx);
      if id in IdsOf(pending) || committedHas(id) {
        return Err(DuplicateTransaction(DuplicateMessage(id)));
      }
      if IsExpired(tx, now, window) {
        return Err(ExpiredTransaction(id));
      }
      forall i | 0 <= i < |pending| ensures pending[i].id != id {
        assert IdsOf(pending)[i] == pending[i].id;
      }
      pending := pending + [PendingEntry(id, tx, now)];
      gossipBroadcasts := gossipBroadcasts + [tx];
      r := Ok(id);
    }

    /** A snapshot of the pending entries, in the order they were added. */
    method GetAllPendingTransactions() returns (entries: seq<PendingEntry>)
      ensures entries == pending
    {
      entries := pending;
    }

    /** Removes every entry whose transaction has gone stale at time `now`, keeping the others in order. */
    method ClearExpiredTransactions(now: Timestamp)
      requires Valid()
      modifies this`pending
      ensures Valid()
      ensures pending == Unexpired(old(pending), now, window)
    {
      var kept: seq<PendingEntry> := [];
      var i := 0;
      while i < |pending|
        invariant 0 <= i <= |pending|
        invariant pending == old(pending)
        invariant kept == Unexpired(pending[..i], now, window)
      {
        UnexpiredConcat(pending[..i], [pending[i]], now, window);
        assert pending[..i + 1] == pending[..i] + [pending[i]];
        if !IsExpired(pending[i].transaction, now, window) {
          kept := kept + [pending[i]];
        }
        i := i + 1;
      }
      assert pending[..i] == pending;
      UnexpiredUnique(pending, now, window);
      UnexpiredMembers(pending, now, window);
      forall j | 0 <= j < |kept| ensures kept[j].id == txId(kept[j].transaction) {
        assert kept[j] in pending;
      }
      pending := kept;
    }
  }

  /** A transaction made at time `now`, with everything else fixed, as the tests build them. */
  function TransactionAt(now: Timestamp): Transaction
  {
    Transaction(TransactionHeader(0, "sender", now), TransactionBody("address", "payload"))
  }

  /** No transaction has been committed yet. */
  const NothingCommitted: TxId -> bool := id => false

  /** A fresh transaction added to an empty pool is the one pending entry, and it is broadcast. */
  method NewTransactionIsAdded(txId: Transaction -> TxId, window: int, now: Timestamp)
    returns (entries: seq<PendingEntry>, broadcasts: seq<Transaction>)
    requires ValidWindow(window)
    ensures |entries| == 1 && entries[0].transaction == TransactionAt(now)
    ensures broadcasts == [TransactionAt(now)]
  {
    var pool := new PendingTransactionPool(txId, NothingCommitted, window);
    var tx := TransactionAt(now);
    var _ := pool.AddNewPendingTransaction(tx, now);
    entries := pool.GetAllPendingTransactions();
    broadcasts := pool.gossipBroadcasts;
  }

  /** Adding the same transaction twice returns its id, then refuses it with an error naming that id. */
  method IdenticalTransactionIsProcessedOnce(txId: Transaction -> TxId, window: int, now: Timestamp)
    returns (first: Result<TxId, AdmissionError>, second: Result<TxId, AdmissionError>)
    requires ValidWindow(window)
    ensures first == Ok(txId(TransactionAt(now)))
    ensures second == Err(DuplicateTransaction("transaction with id " + first.value + " already exists in the transaction pool"))
  {
    var pool := new PendingTransactionPool(txId, NothingCommitted, window);
    var tx := TransactionAt(now);
    first := pool.AddNewPendingTransaction(tx, now);
    assert IdsOf(pool.pending) == [txId(tx)];
    second := pool.AddNewPendingTransaction(tx, now);
  }

  /** A transaction stamped ten minutes ago is refused and the pool stays empty. */
  method ExpiredTransactionIsNotAdded(txId: Transaction -> TxId, window: int, now: Timestamp)
    returns (r: Result<TxId, AdmissionError>, entries: seq<PendingEntry>)
    requires ValidWindow(window)
    ensures r == Err(ExpiredTransaction(txId(TransactionAt(now - TenMinutes))))
    ensures entries == []
  {
    var pool := new PendingTransactionPool(txId, NothingCommitted, window);
    r := pool.AddNewPendingTransaction(TransactionAt(now - TenMinutes), now);
    entries := pool.GetAllPendingTransactions();
  }

  /**
    tx1 is added, ten minutes pass, tx2 is added and the pool is swept: tx2 is
    the one entry left. The two transactions differ in their timestamps, so
    their ids are taken to differ.
  */
  method ExpiredTransactionIsCleared(txId: Transaction -> TxId, window: int, start: Timestamp)
    returns (entries: seq<PendingEntry>)
    requires ValidWindow(window)
    requires txId(TransactionAt(start)) != txId(TransactionAt(start + TenMinutes))
    ensures |entries| == 1 && entries[0].transaction == TransactionAt(start + TenMinutes)
  {
    var pool := new PendingTransactionPool(txId, NothingCommitted, window);
    var tx1 := TransactionAt(start);
    var _ := pool.AddNewPendingTransaction(tx1, start);
    var now := start + TenMinutes;
    var tx2 := TransactionAt(now);
    assert IdsOf(pool.pending) == [txId(tx1)];
    var _ := pool.AddNewPendingTransaction(tx2, now);
    var e1, e2 := PendingEntry(txId(tx1), tx1, start), PendingEntry(txId(tx2), tx2, now);
    assert pool.pending == [e1, e2];
    pool.ClearExpiredTransactions(now);
    entries := pool.GetAllPendingTransactions();
    assert [e1, e2][1..] == [e2];
    assert Unexpired([e2], now, window) == [e2];
    assert entries == Unexpired([e1, e2], now, window) == [e2];
  }
}

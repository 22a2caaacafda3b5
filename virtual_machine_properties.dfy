/**
  What `processTransactionSet` guarantees about its result: the input is split
  into processed and rejected transactions in input order, a non-expected error
  aborts the call, each fork sees the writes of the transactions processed
  before it, a rejected transaction leaves no trace in the state, and the
  stateDiff is the net effect of the block.
*/
module VirtualMachineProperties {
  import opened Types
  import opened StateCaches
  import opened VirtualMachine

  /** The elements of `s` whose mark in `m` is `b`, in the order of `s`. */
  function Select<T>(s: seq<T>, m: seq<bool>, b: bool): seq<T>
    requires |m| == |s|
    decreases |s|
  {
    if s == [] then [] else (if m[0] == b then [s[0]] else []) + Select(s[1..], m[1..], b)
  }

  /** The two selections of one marking split the sequence: together they hold each element once. */
  lemma {:induction false} SelectSplits<T>(s: seq<T>, m: seq<bool>)
    requires |m| == |s|
    ensures |Select(s, m, true)| + |Select(s, m, false)| == |s|
    ensures multiset(Select(s, m, true)) + multiset(Select(s, m, false)) == multiset(s)
    decreases |s|
  {
    if s != [] {
      SelectSplits(s[1..], m[1..]);
      var t := Select(s[1..], m[1..], true);
      var f := Select(s[1..], m[1..], false);
      assert multiset(s) == multiset([s[0]]) + multiset(s[1..]) by { assert s == [s[0]] + s[1..]; }
      if m[0] {
        assert Select(s, m, true) == [s[0]] + t && Select(s, m, false) == f;
        assert multiset([s[0]] + t) == multiset([s[0]]) + multiset(t);
      } else {
        assert Select(s, m, true) == t && Select(s, m, false) == [s[0]] + f;
        assert multiset([s[0]] + f) == multiset([s[0]]) + multiset(f);
      }
    }
  }

  /** The loop's result from a run whose lists were `p` and `q` instead of empty. */
  function Prepend(res: Result<Run, ExecError>, p: seq<Transaction>, q: seq<Transaction>): Result<Run, ExecError>
  {
    match res
    case Err(e) => Err(e)
    case Ok(r) => Ok(Run(r.cache, p + r.processed, q + r.rejected))
  }

  /** One step from lists `p` and `q` is the step from empty lists, with `p` and `q` in front. */
  lemma StepPrependsLists(c: Cache, tx: Transaction, process: Processor, p: seq<Transaction>, q: seq<Transaction>)
    ensures Step(Run(c, p, q), tx, process) == Prepend(Step(Run(c, [], []), tx, process), p, q)
  {
    assert [] + [tx] == [tx] && p + [] == p && q + [] == q;
    match process(CallOf(tx), c.Fork().View()) {
      case Threw(err, _) =>
      case Completed(writes) =>
    }
  }

  lemma FoldSingle(tx: Transaction, process: Processor, run: Run)
    ensures Fold([tx], process, run) == Step(run, tx, process)
  {
    assert [tx][0] == tx;
    assert [tx][1..] == [];
  }

  /** What the loop does never depends on the lists built so far: it only appends to them. */
  lemma {:induction false} FoldPrependsLists(txs: seq<Transaction>, process: Processor, c: Cache, p: seq<Transaction>, q: seq<Transaction>)
    ensures Fold(txs, process, Run(c, p, q)) == Prepend(Fold(txs, process, Run(c, [], [])), p, q)
    decreases |txs|
  {
    if txs != [] {
      var tx := txs[0];
      match Step(Run(c, [], []), tx, process) {
        case Err(e) =>
          StepPrependsLists(c, tx, process, p, q);
        case Ok(n) =>
          StepPrependsLists(c, tx, process, p, q);
          assert Fold(txs, process, Run(c, p, q)) == Fold(txs[1..], process, Run(n.cache, p + n.processed, q + n.rejected));
          assert Fold(txs, process, Run(c, [], [])) == Fold(txs[1..], process, Run(n.cache, n.processed, n.rejected));
          FoldPrependsLists(txs[1..], process, n.cache, p + n.processed, q + n.rejected);
          FoldPrependsLists(txs[1..], process, n.cache, n.processed, n.rejected);
          match Fold(txs[1..], process, Run(n.cache, [], [])) {
            case Err(e) =>
            case Ok(r) =>
              assert p + (n.processed + r.processed) == (p + n.processed) + r.processed;
              assert q + (n.rejected + r.rejected) == (q + n.rejected) + r.rejected;
          }
      }
    } else {
      assert p + [] == p && q + [] == q;
    }
  }

  /** Does the call of the transaction at position `i` complete, in the state the loop reaches before it? */
  predicate CompletesAt(txs: seq<Transaction>, process: Processor, run: Run, i: int)
    requires 0 <= i < |txs|
  {
    && Fold(txs[..i], process, run).Ok?
    && process(CallOf(txs[i]), Fold(txs[..i], process, run).value.cache.View()).Completed?
  }

  /** The marking of `txs` by whether each call completes. */
  function Marks(txs: seq<Transaction>, process: Processor, run: Run): (m: seq<bool>)
    ensures |m| == |txs|
  {
    seq(|txs|, i requires 0 <= i < |txs| => CompletesAt(txs, process, run, i))
  }

  /** After a first step to `n`, position `i` of `txs` completes iff position `i - 1` of the rest does from `n`. */
  lemma CompletesAtShift(txs: seq<Transaction>, process: Processor, run: Run, n: Run, i: int)
    requires 1 <= i < |txs|
    requires Step(run, txs[0], process) == Ok(n)
    ensures CompletesAt(txs, process, run, i) <==> CompletesAt(txs[1..], process, n, i - 1)
  {
    assert txs[..i][0] == txs[0];
    assert txs[..i][1..] == txs[1..][..i - 1];
    assert txs[1..][i - 1] == txs[i];
    assert Fold(txs[..i], process, run) == Fold(txs[1..][..i - 1], process, n);
  }

  /** The marking of a block is the first call's outcome followed by the marking of the rest. */
  lemma MarksShift(txs: seq<Transaction>, process: Processor, run: Run, n: Run)
    requires txs != []
    requires Step(run, txs[0], process) == Ok(n)
    ensures Marks(txs, process, run) ==
            [process(CallOf(txs[0]), run.cache.View()).Completed?] + Marks(txs[1..], process, n)
  {
    var m := Marks(txs, process, run);
    var m' := [process(CallOf(txs[0]), run.cache.View()).Completed?] + Marks(txs[1..], process, n);
    forall i | 0 <= i < |txs| ensures m[i] == m'[i] {
      if i == 0 {
        assert txs[..0] == [];
      } else {
        CompletesAtShift(txs, process, run, n, i);
      }
    }
  }

  /**
    From any loop state, a successful loop only appends to the two lists: it
    appends the transactions whose call completed to the processed list and the
    others to the rejected list, each in input order.
  */
  lemma {:induction false} FoldPartition(txs: seq<Transaction>, process: Processor, run: Run)
    requires Fold(txs, process, run).Ok?
    ensures Fold(txs, process, run).value.processed == run.processed + Select(txs, Marks(txs, process, run), true)
    ensures Fold(txs, process, run).value.rejected == run.rejected + Select(txs, Marks(txs, process, run), false)
    decreases |txs|
  {
    if txs == [] {
      assert run.processed + [] == run.processed && run.rejected + [] == run.rejected;
    } else {
      var n := Step(run, txs[0], process).value;
      var r := Fold(txs, process, run).value;
      var m := Marks(txs, process, run);
      var b := process(CallOf(txs[0]), run.cache.View()).Completed?;
      assert r == Fold(txs[1..], process, n).value;
      FoldPartition(txs[1..], process, n);
      StepLists(run, txs[0], process);
      MarksShift(txs, process, run, n);
      assert m[0] == b && m[1..] == Marks(txs[1..], process, n);
      SelectStep(run.processed, n.processed, r.processed, txs, m, true);
      SelectStep(run.rejected, n.rejected, r.rejected, txs, m, false);
    }
  }

  /** How one successful step extends the two lists. */
  lemma StepLists(run: Run, tx: Transaction, process: Processor)
    requires Step(run, tx, process).Ok?
    ensures var b := process(CallOf(tx), run.cache.View()).Completed?;
            var n := Step(run, tx, process).value;
            && n.processed == run.processed + (if b then [tx] else [])
            && n.rejected == run.rejected + (if !b then [tx] else [])
  {
    assert run.processed + [] == run.processed && run.rejected + [] == run.rejected;
  }

  /**
    One step of a selection: a list that grew by the first element when its
    mark was `b`, and then by the selection of the rest, grew by the selection
    of the whole.
  */
  lemma SelectStep<T>(before: seq<T>, mid: seq<T>, after: seq<T>, s: seq<T>, m: seq<bool>, b: bool)
    requires |m| == |s| && s != []
    requires mid == before + (if m[0] == b then [s[0]] else [])
    requires after == mid + Select(s[1..], m[1..], b)
    ensures after == before + Select(s, m, b)
  {
    var head: seq<T> := if m[0] == b then [s[0]] else [];
    assert Select(s, m, b) == head + Select(s[1..], m[1..], b);
    assert after == before + (head + Select(s[1..], m[1..], b));
  }

  /**
    Every input transaction ends up in exactly one of the two lists, and each
    list keeps the input order: the processed list holds the transactions whose
    call completed and the rejected list the others.
  */
  lemma ProcessPartitionsInput(txs: seq<Transaction>, process: Processor)
    requires ProcessSpec(txs, process).Ok?
    ensures var out := ProcessSpec(txs, process).value;
            && out.processedTransactions == Select(txs, Marks(txs, process, Start), true)
            && out.rejectedTransactions == Select(txs, Marks(txs, process, Start), false)
    ensures var out := ProcessSpec(txs, process).value;
            && |out.processedTransactions| + |out.rejectedTransactions| == |txs|
            && multiset(out.processedTransactions) + multiset(out.rejectedTransactions) == multiset(txs)
  {
    FoldPartition(txs, process, Start);
    SelectSplits(txs, Marks(txs, process, Start));
  }

  /** A selection by a marking that marks every element the other way is empty. */
  lemma {:induction false} SelectNone<T>(s: seq<T>, m: seq<bool>, b: bool)
    requires |m| == |s|
    requires forall i :: 0 <= i < |m| ==> m[i] != b
    ensures Select(s, m, b) == []
    decreases |s|
  {
    if s != [] {
      assert m[0] != b;
      assert forall i :: 0 <= i < |m[1..]| ==> m[1..][i] == m[i + 1];
      SelectNone(s[1..], m[1..], b);
    }
  }

  /**
    With a processor whose calls always complete, the block never aborts, every
    transaction is processed in order and none is rejected.
  */
  lemma AllCompletedNoneRejected(txs: seq<Transaction>, process: Processor)
    requires forall c, st :: process(c, st).Completed?
    ensures ProcessSpec(txs, process).Ok?
    ensures ProcessSpec(txs, process).value.processedTransactions == txs
    ensures ProcessSpec(txs, process).value.rejectedTransactions == []
  {
    match ProcessSpec(txs, process) {
      case Err(e) =>
        AbortHasCause(txs, process, e);
        assert false;
      case Ok(_) =>
    }
    ProcessPartitionsInput(txs, process);
    FoldPrefixesOk(txs, process);
    SelectNone(txs, Marks(txs, process, Start), false);
    SelectAll(txs, Marks(txs, process, Start));
  }

  /** Every prefix of a successful run is successful. */
  lemma FoldPrefixesOk(txs: seq<Transaction>, process: Processor)
    requires Fold(txs, process, Start).Ok?
    ensures forall i :: 0 <= i < |txs| ==> Fold(txs[..i], process, Start).Ok?
  {
    forall i | 0 <= i < |txs| ensures Fold(txs[..i], process, Start).Ok? {
      assert txs[..i] + txs[i..] == txs;
      FoldConcat(txs[..i], txs[i..], process, Start);
    }
  }

  /** A selection by a marking that marks every element is the whole sequence. */
  lemma {:induction false} SelectAll<T>(s: seq<T>, m: seq<bool>)
    requires |m| == |s|
    requires forall i :: 0 <= i < |m| ==> m[i]
    ensures Select(s, m, true) == s
    decreases |s|
  {
    if s != [] {
      assert forall i :: 0 <= i < |m[1..]| ==> m[1..][i] == m[i + 1];
      SelectAll(s[1..], m[1..]);
      assert s == [s[0]] + s[1..];
    }
  }

  /** The loop goes on with `rest` from where `res` left it, unless `res` aborted. */
  function Then(res: Result<Run, ExecError>, rest: seq<Transaction>, process: Processor): Result<Run, ExecError>
  {
    match res
    case Err(e) => Err(e)
    case Ok(r) => Fold(rest, process, r)
  }

  lemma {:induction false} FoldConcat(a: seq<Transaction>, b: seq<Transaction>, process: Processor, run: Run)
    ensures Fold(a + b, process, run) == Then(Fold(a, process, run), b, process)
    decreases |a|
  {
    if a == [] {
      assert a + b == b;
    } else {
      assert (a + b)[0] == a[0];
      assert (a + b)[1..] == a[1..] + b;
      match Step(run, a[0], process)
      case Err(e) =>
      case Ok(n) => FoldConcat(a[1..], b, process, n);
    }
  }

  /** The effect of one transaction on the loop state, by the outcome of its call. */
  lemma StepEffect(run: Run, tx: Transaction, process: Processor)
    ensures var x := process(CallOf(tx), run.cache.View());
            x.Threw? && !x.error.expected ==> Step(run, tx, process) == Err(x.error)
    ensures var x := process(CallOf(tx), run.cache.View());
            x.Threw? && x.error.expected ==>
              Step(run, tx, process) == Ok(Run(run.cache, run.processed, run.rejected + [tx]))
    ensures var x := process(CallOf(tx), run.cache.View());
            x.Completed? ==>
              && Step(run, tx, process).Ok?
              && var n := Step(run, tx, process).value;
              && n.processed == run.processed + [tx]
              && n.rejected == run.rejected
              && n.cache.base == run.cache.base
              && n.cache.View() == Apply(run.cache.View(), x.writes)
              && KeysOf(run.cache.modified) <= KeysOf(n.cache.modified)
              && KeySet(n.cache.modified) == KeySet(run.cache.modified) + KeySet(x.writes)
              && (DistinctKeys(run.cache.modified) ==> DistinctKeys(n.cache.modified))
  {
    var fork := run.cache.Fork();
    var x := process(CallOf(tx), run.cache.View());
    if x.Completed? {
      var forked := fork.SetAll(x.writes);
      SetAllView(fork, x.writes);
      SetAllKeys(fork, x.writes);
      assert KeySet(fork.modified) == {};
      SetAllView(run.cache, forked.modified);
      SetAllKeys(run.cache, forked.modified);
    }
  }

  /** How the loop state changes over a run, whatever the outcomes were. */
  lemma {:induction false} FoldKeepsShape(txs: seq<Transaction>, process: Processor, run: Run)
    requires Fold(txs, process, run).Ok?
    ensures var r := Fold(txs, process, run).value;
            && r.cache.base == run.cache.base
            && KeysOf(run.cache.modified) <= KeysOf(r.cache.modified)
            && (DistinctKeys(run.cache.modified) ==> DistinctKeys(r.cache.modified))
            && |r.processed| >= |run.processed|
            && (|r.processed| == |run.processed| ==> r.cache == run.cache)
    decreases |txs|
  {
    if txs != [] {
      var n := Step(run, txs[0], process).value;
      StepEffect(run, txs[0], process);
      FoldKeepsShape(txs[1..], process, n);
    }
  }

  /** Where the loop aborts with `e`: at position `i`, all earlier positions went through. */
  ghost predicate AbortsAt(txs: seq<Transaction>, process: Processor, run: Run, i: int, e: ExecError)
  {
    && 0 <= i < |txs|
    && Fold(txs[..i], process, run).Ok?
    && Aborts(process(CallOf(txs[i]), Fold(txs[..i], process, run).value.cache.View()), e)
  }

  /** A non-expected error aborts the whole call with that error. */
  lemma UnexpectedErrorAborts(txs: seq<Transaction>, process: Processor, i: int, e: ExecError)
    requires AbortsAt(txs, process, Start, i, e)
    ensures ProcessSpec(txs, process) == Err(e)
  {
    var r := Fold(txs[..i], process, Start).value;
    assert txs[..i] + txs[i..] == txs;
    FoldConcat(txs[..i], txs[i..], process, Start);
    assert txs[i..][0] == txs[i];
    StepEffect(r, txs[i], process);
  }

  lemma {:induction false} FoldErrorHasCause(txs: seq<Transaction>, process: Processor, run: Run, e: ExecError)
    requires Fold(txs, process, run) == Err(e)
    ensures exists i :: AbortsAt(txs, process, run, i, e)
    decreases |txs|
  {
    var tx := txs[0];
    StepEffect(run, tx, process);
    match Step(run, tx, process)
    case Err(e') =>
      assert txs[..0] == [];
      assert AbortsAt(txs, process, run, 0, e);
    case Ok(n) =>
      FoldErrorHasCause(txs[1..], process, n, e);
      var i :| AbortsAt(txs[1..], process, n, i, e);
      assert txs[..i + 1][0] == tx;
      assert txs[..i + 1][1..] == txs[1..][..i];
      assert txs[1..][i] == txs[i + 1];
      assert Fold(txs[..i + 1], process, run) == Fold(txs[1..][..i], process, n);
      assert AbortsAt(txs, process, run, i + 1, e);
  }

  /** The converse: a call that aborts does so because some transaction threw a non-expected error. */
  lemma AbortHasCause(txs: seq<Transaction>, process: Processor, e: ExecError)
    requires ProcessSpec(txs, process) == Err(e)
    ensures exists i :: AbortsAt(txs, process, Start, i, e)
  {
    FoldErrorHasCause(txs, process, Start, e);
  }

  /**
    The fork of the next transaction is taken from the block cache after the
    merge of this one: it sees this transaction's writes when it completed, and
    the same state as this transaction when it was rejected.
  */
  lemma NextForkView(txs: seq<Transaction>, process: Processor, i: int)
    requires 0 <= i < |txs|
    requires Fold(txs[..i], process, Start).Ok?
    ensures var r := Fold(txs[..i], process, Start).value;
            var x := process(CallOf(txs[i]), r.cache.View());
            x.Completed? ==>
              && Fold(txs[..i + 1], process, Start).Ok?
              && Fold(txs[..i + 1], process, Start).value.cache.View() == Apply(r.cache.View(), x.writes)
    ensures var r := Fold(txs[..i], process, Start).value;
            var x := process(CallOf(txs[i]), r.cache.View());
            x.Threw? && x.error.expected ==>
              Fold(txs[..i + 1], process, Start) == Ok(Run(r.cache, r.processed, r.rejected + [txs[i]]))
  {
    var r := Fold(txs[..i], process, Start).value;
    assert txs[..i + 1] == txs[..i] + [txs[i]];
    FoldConcat(txs[..i], [txs[i]], process, Start);
    FoldSingle(txs[i], process, r);
    StepEffect(r, txs[i], process);
  }

  /**
    A transaction rejected with an expected error leaves no trace: taking it out
    of the block changes neither the stateDiff nor the processed list, and the
    only difference in the rejected list is the transaction itself.
  */
  lemma RejectedTransactionIsInert(a: seq<Transaction>, tx: Transaction, b: seq<Transaction>, process: Processor)
    requires Fold(a, process, Start).Ok?
    requires var x := process(CallOf(tx), Fold(a, process, Start).value.cache.View());
             x.Threw? && x.error.expected
    ensures var full := ProcessSpec(a + [tx] + b, process);
            var without := ProcessSpec(a + b, process);
            && full.Ok? == without.Ok?
            && (full.Err? ==> full.error == without.error)
            && (full.Ok? ==>
                  var k := |Fold(a, process, Start).value.rejected|;
                  && k <= |without.value.rejectedTransactions|
                  && full.value.stateDiff == without.value.stateDiff
                  && full.value.processedTransactions == without.value.processedTransactions
                  && full.value.rejectedTransactions ==
                     without.value.rejectedTransactions[..k] + [tx] + without.value.rejectedTransactions[k..])
  {
    var r := Fold(a, process, Start).value;
    var r' := Run(r.cache, r.processed, r.rejected + [tx]);
    FoldConcat(a + [tx], b, process, Start);
    FoldConcat(a, [tx], process, Start);
    FoldSingle(tx, process, r);
    StepEffect(r, tx, process);
    assert Fold(a + [tx], process, Start) == Ok(r');
    FoldConcat(a, b, process, Start);
    FoldPrependsLists(b, process, r.cache, r.processed, r.rejected + [tx]);
    FoldPrependsLists(b, process, r.cache, r.processed, r.rejected);
    match Fold(b, process, Run(r.cache, [], []))
    case Err(e) =>
    case Ok(s) =>
      var without := r.rejected + s.rejected;
      assert without[..|r.rejected|] == r.rejected;
      assert without[|r.rejected|..] == s.rejected;
  }

  /**
    The stateDiff is the net effect of the block: it names each key once and,
    written in order into an empty state, gives what the block cache shows.
    Without a processed transaction it is empty.
  */
  lemma StateDiffIsNetEffect(txs: seq<Transaction>, process: Processor)
    requires ProcessSpec(txs, process).Ok?
    ensures var out := ProcessSpec(txs, process).value;
            && DistinctKeys(DiffAsModified(out.stateDiff))
            && Apply(map[], DiffAsModified(out.stateDiff)) == Fold(txs, process, Start).value.cache.View()
            && (out.processedTransactions == [] ==> out.stateDiff == [])
  {
    var r := Fold(txs, process, Start).value;
    FoldKeepsShape(txs, process, Start);
    StateDiffRoundTrip(r.cache.modified);
  }

  /**
    A block of T1, which writes k = v, and T2, which is rejected, applied to an
    empty state: the stateDiff is [k = v], T1 is processed and T2 rejected.
  */
  lemma TwoTransactionBlock(t1: Transaction, t2: Transaction, process: Processor, k: StateKey, v: Value)
    requires process(CallOf(t1), map[]) == Completed([Modified(k, v)])
    requires process(CallOf(t2), map[k := v]).Threw? && process(CallOf(t2), map[k := v]).error.expected
    ensures ProcessSpec([t1, t2], process) == Ok(Output([StateDiffEntry(k.contractAddress, k.key, v)], [t1], [t2]))
  {
    var w := [Modified(k, v)];
    assert w[1..] == [];
    assert Empty.View() == map[];
    assert KeysOf([]) == [] && [] + w == w;
    assert Empty.Fork() == Empty;
    assert Empty.Set(k, v) == Cache(map[], w);
    var c1 := Empty.SetAll(w);
    assert c1 == Empty.Set(k, v).SetAll([]);
    assert c1 == Cache(map[], w);
    assert Empty.Fork().SetAll(w) == c1;
    assert Apply(map[], w) == Apply(map[k := v], []);
    assert c1.View() == map[k := v];
    assert Start.cache.Fork().View() == map[];
    assert [] + [t1] == [t1];
    assert Start.cache.SetAll(Start.cache.Fork().SetAll(w).modified) == c1;
    assert Step(Start, t1, process) == Ok(Run(c1, [t1], []));
    StepEffect(Run(c1, [t1], []), t2, process);
    assert [] + [t2] == [t2];
    assert Step(Run(c1, [t1], []), t2, process) == Ok(Run(c1, [t1], [t2]));
    assert [t1, t2][0] == t1 && [t1, t2][1..] == [t2];
    FoldSingle(t2, process, Run(c1, [t1], []));
    assert StateDiff(w) == [StateDiffEntry(k.contractAddress, k.key, v)];
    assert Fold([t1, t2], process, Start) == Ok(Run(c1, [t1], [t2]));
  }
}

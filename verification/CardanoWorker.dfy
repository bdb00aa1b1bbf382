/** The Cardano worker over answers that may break off anywhere: `work` of cardano/cardano_worker.ts. */
module CardanoWorkers {
  import opened Common
  import opened CardanoBlocks

  const NODE_FAILED := "request failed"
  const NO_GENESIS := "Error getting Cardano genesis transactions"
  const UNEXPECTED_NUMBER := "Unexpected block number for genesis transaction"
  const INCOMPLETE := "Block should have more transactions than we extracted"

  datatype Settings = Settings(confirmations: int, blockInterval: int)

  datatype View = View(lastConfirmed: int, lastExported: int, lastPrimaryKey: int)

  /**
   * What the node answers during one call, unless it fails: its tip, the genesis transactions, those of an interval.
   */
  datatype Answers = Answers(tip: Option<int>, genesis: Option<seq<Transaction>>,
                             txs: (int, int) -> Option<seq<Transaction>>)

  function WithKeys(txs: seq<Transaction>, lastPrimaryKey: int): (r: seq<Transaction>)
    ensures |r| == |txs|
  {
    seq(|txs|, i requires 0 <= i < |txs| => txs[i].(primaryKey := Some(lastPrimaryKey + i + 1)))
  }

  function InBlockZero(tx: Transaction): Transaction {
    tx.(block := Some(0))
  }

  /** A genesis transaction has no block number, or 0. */
  predicate NotNumbered(tx: Transaction) {
    tx.block.GetOr(0) == 0
  }

  predicate NoneNumbered(txs: seq<Transaction>) {
    forall i :: 0 <= i < |txs| ==> NotNumbered(txs[i])
  }

  /** Keep whole blocks, check them, set the keys and move on. */
  ghost function Finished(v: View, txs: seq<Transaction>): (View, Result<seq<Transaction>>)
    requires txs != []
  {
    match Discarded(txs)
    case Err(error) => (v, Err(error))
    case Ok(kept) =>
      if !AllComplete(kept) then (v, Err(INCOMPLETE))
      else
        (v.(lastExported := if kept == [] then 0 else kept[|kept| - 1].block.GetOr(0),
            lastPrimaryKey := v.lastPrimaryKey + |kept|),
         Ok(WithKeys(kept, v.lastPrimaryKey)))
  }

  function IntervalEnd(s: Settings, v: View): int {
    Min(v.lastConfirmed, v.lastExported + 1 + s.blockInterval - 1)
  }

  /** Fetch and export; an empty answer moves the position by one block. */
  ghost function Fetched(s: Settings, v: View, a: Answers): (View, Result<seq<Transaction>>) {
    if v.lastExported < 0 then
      match a.genesis
      case None => (v, Err(NODE_FAILED))
      case Some(txs) =>
        if txs == [] then (v, Err(NO_GENESIS))
        else if !NoneNumbered(txs) then (v, Err(UNEXPECTED_NUMBER))
        else Finished(v, MapSeq(txs, InBlockZero))
    else
      match a.txs(v.lastExported + 1, IntervalEnd(s, v))
      case None => (v, Err(NODE_FAILED))
      case Some(txs) =>
        if txs == [] then (v.(lastExported := v.lastExported + 1), Ok([])) else Finished(v, txs)
  }

  /** The head is close: the node is asked for a newer one. */
  predicate NearHead(v: View) {
    v.lastExported + 1 >= v.lastConfirmed - 2
  }

  /** Even the newer head is less than two blocks ahead. */
  predicate Waits(s: Settings, v: View, a: Answers) {
    NearHead(v) && a.tip.Some? && a.tip.value - s.confirmations < v.lastExported + 1 + 2
  }

  ghost function WorkStep(s: Settings, v: View, a: Answers): (View, Result<seq<Transaction>>) {
    if !NearHead(v) then Fetched(s, v, a)
    else if a.tip.None? then (v, Err(NODE_FAILED))
    else
      var w := v.(lastConfirmed := a.tip.value - s.confirmations);
      if Waits(s, v, a) then (w, Ok([])) else Fetched(s, w, a)
  }

  class CardanoWorker {
    const settings: Settings
    var lastConfirmedBlock: int
    var lastExportedBlock: int
    var lastPrimaryKey: int

    constructor (settings: Settings, tip: int, lastExportedBlock: int, lastPrimaryKey: int)
      ensures this.settings == settings
      ensures Fields() == View(tip - settings.confirmations, lastExportedBlock, lastPrimaryKey)
    {
      this.settings := settings;
      this.lastConfirmedBlock := tip - settings.confirmations;
      this.lastExportedBlock, this.lastPrimaryKey := lastExportedBlock, lastPrimaryKey;
    }

    function Fields(): View
      reads this
    {
      View(lastConfirmedBlock, lastExportedBlock, lastPrimaryKey)
    }

    /** Drop an incomplete last block, verify the others, set the keys. */
    method Finish(txs: seq<Transaction>) returns (r: Result<seq<Transaction>>)
      requires txs != []
      modifies this
      ensures (Fields(), r) == Finished(old(Fields()), txs)
    {
      var kept := DiscardNotCompletedBlock(txs);
      if kept.Err? {
        return Err(kept.error);
      }
      DiscardedIsNotEmpty(txs);
      var complete := VerifyAllBlocksComplete(kept.value);
      if !complete {
        return Err(INCOMPLETE);
      }
      var keyed := SetKeys(kept.value, lastPrimaryKey);
      lastExportedBlock := kept.value[|kept.value| - 1].block.GetOr(0);
      lastPrimaryKey := lastPrimaryKey + |kept.value|;
      return Ok(keyed);
    }

    method Fetch(a: Answers) returns (r: Result<seq<Transaction>>)
      modifies this
      ensures (Fields(), r) == Fetched(settings, old(Fields()), a)
    {
      if lastExportedBlock < 0 {
        if a.genesis.None? {
          return Err(NODE_FAILED);
        }
        if a.genesis.value == [] {
          return Err(NO_GENESIS);
        }
        var zeroed := SetBlockZeroForGenesisTransfers(a.genesis.value);
        if zeroed.Err? {
          return Err(zeroed.error);
        }
        r := Finish(zeroed.value);
      } else {
        var fromBlock := lastExportedBlock + 1;
        var txs := a.txs(fromBlock, Min(lastConfirmedBlock, fromBlock + settings.blockInterval - 1));
        if txs.None? {
          return Err(NODE_FAILED);
        }
        if txs.value == [] {
          lastExportedBlock := fromBlock;
          return Ok([]);
        }
        r := Finish(txs.value);
      }
    }

    method Work(a: Answers) returns (r: Result<seq<Transaction>>)
      modifies this
      ensures (Fields(), r) == WorkStep(settings, old(Fields()), a)
    {
      var fromBlock := lastExportedBlock + 1;
      if fromBlock >= lastConfirmedBlock - 2 {
        if a.tip.None? {
          return Err(NODE_FAILED);
        }
        lastConfirmedBlock := a.tip.value - settings.confirmations;
        if lastConfirmedBlock < fromBlock + 2 {
          return Ok([]);
        }
      }
      r := Fetch(a);
    }
  }

  lemma DiscardedIsNotEmpty(txs: seq<Transaction>)
    requires txs != []
    ensures Discarded(txs).Ok? ==> Discarded(txs).value != []
  {
  }

  method SetKeys(txs: seq<Transaction>, lastPrimaryKey: int) returns (r: seq<Transaction>)
    ensures r == WithKeys(txs, lastPrimaryKey)
  {
    var transactions := new Transaction[|txs|](i requires 0 <= i < |txs| => txs[i]);
    for i := 0 to |txs|
      invariant transactions[..] == WithKeys(txs, lastPrimaryKey)[..i] + txs[i..]
    {
      transactions[i] := transactions[i].(primaryKey := Some(lastPrimaryKey + i + 1));
    }
    return transactions[..];
  }

  method SetBlockZeroForGenesisTransfers(txs: seq<Transaction>) returns (r: Result<seq<Transaction>>)
    ensures r == if NoneNumbered(txs) then Ok(MapSeq(txs, InBlockZero)) else Err(UNEXPECTED_NUMBER)
  {
    var transactions := new Transaction[|txs|](i requires 0 <= i < |txs| => txs[i]);
    MappedEnds(txs, InBlockZero);
    for i := 0 to |txs|
      invariant transactions[..] == MappedUpTo(txs, InBlockZero, i)
      invariant NoneNumbered(txs[..i])
    {
      assert transactions[i] == txs[i];
      if txs[i].block.Some? && txs[i].block.value != 0 {
        assert !NotNumbered(txs[i]);
        return Err(UNEXPECTED_NUMBER);
      }
      MappedStep(txs, InBlockZero, i);
      transactions[i] := transactions[i].(block := Some(0));
    }
    assert txs[..|txs|] == txs;
    return Ok(transactions[..]);
  }

  /** Page by page until an empty page: the node returns at least one transaction as long as there are more. */
  method GetGenesisTransactions(genesis: seq<Transaction>, pageSize: nat -> nat) returns (merged: seq<Transaction>)
    requires forall offset :: pageSize(offset) >= 1
    ensures merged == genesis
  {
    merged := [];
    var currentOffset := 0;
    var batch := genesis[..Min(pageSize(0), |genesis|)];
    while |batch| > 0
      invariant 0 <= currentOffset <= |genesis| && merged == genesis[..currentOffset]
      invariant batch == genesis[currentOffset..Min(currentOffset + pageSize(currentOffset), |genesis|)]
      decreases |genesis| - currentOffset
    {
      merged := merged + batch;
      currentOffset := currentOffset + |batch|;
      batch := genesis[currentOffset..Min(currentOffset + pageSize(currentOffset), |genesis|)];
    }
  }

  // ----- Runs -----

  /** An answer for an interval is the first transactions of it, and is empty only if its first block is. */
  ghost predicate HonestInterval(c: Chain, lo: int, hi: int, txs: seq<Transaction>) {
    txs <= ChainTxs(c, lo, hi) && (txs == [] ==> c.txs(lo) == [])
  }

  ghost predicate Honest(c: Chain, a: Answers) {
    && (a.genesis.Some? ==> a.genesis.value == c.genesis)
    && forall lo, hi :: lo <= hi && a.txs(lo, hi).Some? ==> HonestInterval(c, lo, hi, a.txs(lo, hi).value)
  }

  /** What has to be exported between two positions: the genesis transactions come at block 0. */
  function Expected(c: Chain, start: int, last: int): seq<Transaction> {
    if start >= 0 then ChainTxs(c, start + 1, last)
    else if last < 0 then []
    else MapSeq(c.genesis, InBlockZero) + ChainTxs(c, 1, last)
  }

  /** The export so far is exactly what it has to be, with consecutive keys. */
  ghost predicate Exact(c: Chain, start: int, key: int, v: View, exported: seq<Transaction>) {
    && start <= v.lastExported
    && exported == WithKeys(Expected(c, start, v.lastExported), key)
    && v.lastPrimaryKey == key + |exported|
  }

  lemma WithKeysAppend(a: seq<Transaction>, b: seq<Transaction>, key: int)
    ensures WithKeys(a + b, key) == WithKeys(a, key) + WithKeys(b, key + |a|)
  {
  }

  /** Genesis is one whole block. */
  lemma GenesisIsWhole(c: Chain)
    requires ValidChain(c)
    ensures var txs := MapSeq(c.genesis, InBlockZero);
            NoneNumbered(c.genesis) && Discarded(txs) == Ok(txs) && AllComplete(txs)
            && txs[|txs| - 1].block == Some(0)
  {
    var txs := MapSeq(c.genesis, InBlockZero);
    LastRunStartIs(txs, 0);
    AppendRun([], txs);
    assert [] + txs == txs;
  }

  lemma ExpectedGrows(c: Chain, start: int, last: int, next: int)
    requires start <= last < next && last >= 0
    ensures Expected(c, start, next) == Expected(c, start, last) + ChainTxs(c, last + 1, next)
  {
    if start >= 0 {
      ChainSplit(c, start + 1, last, next);
    } else {
      ChainSplit(c, 1, last, next);
      AppendAssoc(MapSeq(c.genesis, InBlockZero), ChainTxs(c, 1, last), ChainTxs(c, last + 1, next));
    }
  }

  lemma EmptyAnswerKeeps(c: Chain, v: View, start: int, key: int, exported: seq<Transaction>)
    requires Exact(c, start, key, v, exported) && v.lastExported >= 0 && c.txs(v.lastExported + 1) == []
    ensures Exact(c, start, key, v.(lastExported := v.lastExported + 1), exported)
  {
    var lo := v.lastExported + 1;
    OneBlock(c, lo);
    ExpectedGrows(c, start, v.lastExported, lo);
    assert Expected(c, start, v.lastExported) + [] == Expected(c, start, v.lastExported);
  }

  lemma BlocksKeep(c: Chain, v: View, start: int, key: int, exported: seq<Transaction>, kept: seq<Transaction>,
                   last: int)
    requires Exact(c, start, key, v, exported) && 0 <= v.lastExported < last
    requires kept == ChainTxs(c, v.lastExported + 1, last)
    ensures Exact(c, start, key, v.(lastExported := last, lastPrimaryKey := v.lastPrimaryKey + |kept|),
                  exported + WithKeys(kept, v.lastPrimaryKey))
  {
    ExpectedGrows(c, start, v.lastExported, last);
    WithKeysAppend(Expected(c, start, v.lastExported), kept, key);
  }

  lemma FinishedKeeps(c: Chain, v: View, start: int, key: int, exported: seq<Transaction>, txs: seq<Transaction>,
                      hi: int)
    requires ValidChain(c) && Exact(c, start, key, v, exported) && v.lastExported >= 0
    requires txs != [] && txs <= ChainTxs(c, v.lastExported + 1, hi)
    ensures var (next, r) := Finished(v, txs);
            r.Ok? ==> Exact(c, start, key, next, exported + r.value) && v.lastExported < next.lastExported <= hi
  {
    var lo := v.lastExported + 1;
    assert txs == ChainTxs(c, lo, hi)[..|txs|];
    DiscardLeavesWholeBlocks(c, lo, hi, |txs|);
    if Discarded(txs).Ok? {
      var kept := Discarded(txs).value;
      BlocksKeep(c, v, start, key, exported, kept, kept[|kept| - 1].block.value);
    }
  }

  /** An honest answer makes a call throw exactly when it holds nothing but a part of one block. */
  lemma ThrowsOnlyOnPartOfOneBlock(c: Chain, v: View, txs: seq<Transaction>, hi: int)
    requires ValidChain(c) && txs != [] && txs <= ChainTxs(c, v.lastExported + 1, hi)
    ensures Finished(v, txs).1.Err? <==>
            txs[0].count != |txs| && forall i :: 0 <= i < |txs| ==> SameBlock(txs[i], txs[|txs| - 1])
  {
    assert txs == ChainTxs(c, v.lastExported + 1, hi)[..|txs|];
    DiscardLeavesWholeBlocks(c, v.lastExported + 1, hi, |txs|);
    if forall i :: 0 <= i < |txs| ==> SameBlock(txs[i], txs[|txs| - 1]) {
      LastRunStartIs(txs, 0);
    }
  }

  ghost function Answered(v: View, txs: seq<Transaction>): (View, Result<seq<Transaction>>) {
    if txs == [] then (v.(lastExported := v.lastExported + 1), Ok([])) else Finished(v, txs)
  }

  /** A step that does not throw keeps the export exact, and moves forward from the position. */
  ghost predicate Advances(c: Chain, start: int, key: int, exported: seq<Transaction>, last: int, end: int,
                           step: (View, Result<seq<Transaction>>)) {
    step.1.Ok? ==> Exact(c, start, key, step.0, exported + step.1.value) && last < step.0.lastExported <= end
  }

  lemma AnswerKeeps(c: Chain, v: View, start: int, key: int, exported: seq<Transaction>, txs: seq<Transaction>, hi: int)
    requires ValidChain(c) && Exact(c, start, key, v, exported) && 0 <= v.lastExported < hi
    requires HonestInterval(c, v.lastExported + 1, hi, txs)
    ensures Advances(c, start, key, exported, v.lastExported, hi, Answered(v, txs))
  {
    if txs == [] {
      EmptyAnswerKeeps(c, v, start, key, exported);
      assert exported + [] == exported;
    } else {
      FinishedKeeps(c, v, start, key, exported, txs, hi);
    }
  }

  lemma FetchedIsAnswered(s: Settings, v: View, a: Answers)
    requires v.lastExported >= 0
    ensures var answer := a.txs(v.lastExported + 1, IntervalEnd(s, v));
            if answer.None? then Fetched(s, v, a).1.Err? else Fetched(s, v, a) == Answered(v, answer.value)
  {
  }

  lemma IntervalKeeps(c: Chain, s: Settings, v: View, a: Answers, start: int, key: int, exported: seq<Transaction>)
    requires ValidChain(c) && Honest(c, a) && Exact(c, start, key, v, exported)
    requires v.lastExported >= 0 && v.lastExported + 1 <= IntervalEnd(s, v)
    ensures Advances(c, start, key, exported, v.lastExported, IntervalEnd(s, v), Fetched(s, v, a))
  {
    var lo, hi := v.lastExported + 1, IntervalEnd(s, v);
    FetchedIsAnswered(s, v, a);
    if a.txs(lo, hi).Some? {
      assert HonestInterval(c, lo, hi, a.txs(lo, hi).value);
      AnswerKeeps(c, v, start, key, exported, a.txs(lo, hi).value, hi);
    }
  }

  lemma GenesisKeeps(c: Chain, s: Settings, v: View, a: Answers, start: int, key: int, exported: seq<Transaction>)
    requires ValidChain(c) && Honest(c, a) && Exact(c, start, key, v, exported) && v.lastExported < 0
    ensures Advances(c, start, key, exported, v.lastExported, 0, Fetched(s, v, a))
  {
    GenesisIsWhole(c);
    var txs := MapSeq(c.genesis, InBlockZero);
    assert exported == [];
    assert [] + WithKeys(txs, key) == WithKeys(txs, key);
    assert txs + [] == txs;
  }

  lemma FetchedKeeps(c: Chain, s: Settings, v: View, a: Answers, start: int, key: int, exported: seq<Transaction>)
    requires ValidChain(c) && Honest(c, a) && Exact(c, start, key, v, exported)
    requires s.blockInterval >= 1 && v.lastExported + 1 <= v.lastConfirmed
    ensures Advances(c, start, key, exported, v.lastExported, Max(0, IntervalEnd(s, v)), Fetched(s, v, a))
  {
    if v.lastExported < 0 {
      GenesisKeeps(c, s, v, a, start, key, exported);
    } else {
      IntervalKeeps(c, s, v, a, start, key, exported);
    }
  }

  lemma NearKeeps(c: Chain, s: Settings, v: View, w: View, a: Answers, start: int, key: int, exported: seq<Transaction>)
    requires ValidChain(c) && Honest(c, a) && s.blockInterval >= 1 && Exact(c, start, key, v, exported)
    requires NearHead(v) && a.tip.Some? && !Waits(s, v, a) && w == v.(lastConfirmed := a.tip.value - s.confirmations)
    ensures WorkStep(s, v, a) == Fetched(s, w, a)
    ensures Advances(c, start, key, exported, v.lastExported, Max(0, IntervalEnd(s, w)), Fetched(s, w, a))
  {
    WaitingKeeps(c, v, start, key, exported, a.tip.value - s.confirmations);
    FetchedKeeps(c, s, w, a, start, key, exported);
  }

  lemma WaitingKeeps(c: Chain, v: View, start: int, key: int, exported: seq<Transaction>, lastConfirmed: int)
    requires Exact(c, start, key, v, exported)
    ensures Exact(c, start, key, v.(lastConfirmed := lastConfirmed), exported)
    ensures Exact(c, start, key, v.(lastConfirmed := lastConfirmed), exported + [])
  {
    assert exported + [] == exported;
  }

  /** A call keeps the export exact; unless it waits for the node, it moves the position forward. */
  lemma StepKeeps(c: Chain, s: Settings, v: View, a: Answers, start: int, key: int, exported: seq<Transaction>)
    requires ValidChain(c) && Honest(c, a) && s.blockInterval >= 1 && Exact(c, start, key, v, exported)
    ensures var (next, r) := WorkStep(s, v, a);
            r.Ok? ==>
              && Exact(c, start, key, next, exported + r.value)
              && (if Waits(s, v, a) then r.value == [] && next.lastExported == v.lastExported
                  else next.lastExported > v.lastExported)
  {
    if !NearHead(v) {
      FetchedKeeps(c, s, v, a, start, key, exported);
    } else if Waits(s, v, a) {
      WaitingKeeps(c, v, start, key, exported, a.tip.value - s.confirmations);
    } else if a.tip.Some? {
      NearKeeps(c, s, v, v.(lastConfirmed := a.tip.value - s.confirmations), a, start, key, exported);
    }
  }

  /** A run of calls: the fields after it and all that was exported, as long as no call throws. */
  ghost function Run(s: Settings, v: View, answers: seq<Answers>): Option<(View, seq<Transaction>)> {
    if answers == [] then Some((v, []))
    else
      match Run(s, v, answers[..|answers| - 1])
      case None => None
      case Some((before, exported)) =>
        var (next, r) := WorkStep(s, before, answers[|answers| - 1]);
        if r.Ok? then Some((next, exported + r.value)) else None
  }

  /**
   * Over any run without a thrown error, wherever the answers break off, the export is the chain's
   * transactions up to the position: whole blocks, none missing and none twice, with consecutive keys.
   */
  lemma {:induction false} RunIsExact(c: Chain, s: Settings, v: View, answers: seq<Answers>)
    requires ValidChain(c) && s.blockInterval >= 1
    requires forall i :: 0 <= i < |answers| ==> Honest(c, answers[i])
    ensures var run := Run(s, v, answers);
            run.Some? ==> Exact(c, v.lastExported, v.lastPrimaryKey, run.value.0, run.value.1)
  {
    if answers == [] {
      assert Expected(c, v.lastExported, v.lastExported) == [];
    } else {
      var init, last := answers[..|answers| - 1], answers[|answers| - 1];
      RunIsExact(c, s, v, init);
      var run := Run(s, v, init);
      if run.Some? {
        StepKeeps(c, s, run.value.0, last, v.lastExported, v.lastPrimaryKey, run.value.1);
      }
    }
  }
}

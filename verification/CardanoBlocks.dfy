/** Whole blocks from answers that may break off: cardano/lib/util.js. */
module CardanoBlocks {
  import opened Common

  /** A transaction; `count` is how many its block has, and genesis transactions have no block number. */
  datatype Transaction = Transaction(content: int, block: Option<int>, count: int, primaryKey: Option<int>)

  // ----- Dropping an incomplete last block -----

  predicate SameBlock(a: Transaction, b: Transaction) {
    a.block == b.block
  }

  /** Where the transactions of the last block start. */
  function LastRunStart(txs: seq<Transaction>): (start: nat)
    requires txs != []
    ensures start < |txs|
    ensures forall i :: start <= i < |txs| ==> SameBlock(txs[i], txs[|txs| - 1])
    ensures start > 0 ==> !SameBlock(txs[start - 1], txs[|txs| - 1])
  {
    if |txs| == 1 || !SameBlock(txs[|txs| - 2], txs[|txs| - 1]) then |txs| - 1
    else LastRunStart(txs[..|txs| - 1])
  }

  function Discarded(txs: seq<Transaction>): Result<seq<Transaction>>
    requires txs != []
  {
    var start := LastRunStart(txs);
    if txs[start].count == |txs| - start then Ok(txs)
    else if start == 0 then Err("Single extracted block is partial. Exporter would not be able to progress.")
    else Ok(txs[..start])
  }

  lemma LastRunStartIs(txs: seq<Transaction>, start: nat)
    requires start < |txs| && forall i :: start <= i < |txs| ==> SameBlock(txs[i], txs[|txs| - 1])
    requires start > 0 ==> !SameBlock(txs[start - 1], txs[|txs| - 1])
    ensures LastRunStart(txs) == start
  {
    var s := LastRunStart(txs);
  }

  method DiscardNotCompletedBlock(txs: seq<Transaction>) returns (r: Result<seq<Transaction>>)
    requires txs != []
    ensures r == Discarded(txs)
  {
    var lastBlockNumber := txs[|txs| - 1].block;
    var index := |txs| - 2;
    while index >= 0 && txs[index].block == lastBlockNumber
      invariant -1 <= index <= |txs| - 2
      invariant forall i :: index < i < |txs| ==> SameBlock(txs[i], txs[|txs| - 1])
    {
      index := index - 1;
    }
    LastRunStartIs(txs, index + 1);
    var numExpected := txs[index + 1].count;
    var numSeen := |txs| - index - 1;
    if numExpected != numSeen {
      if index < 0 {
        return Err("Single extracted block is partial. Exporter would not be able to progress.");
      }
      return Ok(txs[..index + 1]);
    }
    return Ok(txs);
  }

  // ----- Checking that blocks are whole -----

  /** The transactions i to j are those of one block, as far as they are there. */
  predicate IsRun(txs: seq<Transaction>, i: int, j: int) {
    && 0 <= i <= j < |txs|
    && (forall k :: i <= k <= j ==> SameBlock(txs[k], txs[i]))
    && (i > 0 ==> !SameBlock(txs[i - 1], txs[i]))
    && (j < |txs| - 1 ==> !SameBlock(txs[j + 1], txs[i]))
  }

  predicate Whole(txs: seq<Transaction>, i: int, j: int)
    requires 0 <= i <= j < |txs|
  {
    txs[j].count == j - i + 1
  }

  ghost predicate AllComplete(txs: seq<Transaction>) {
    forall i, j :: IsRun(txs, i, j) ==> Whole(txs, i, j)
  }

  /** The runs that end before i are whole. */
  ghost predicate CompleteBefore(txs: seq<Transaction>, i: int) {
    forall a, b :: IsRun(txs, a, b) && b < i ==> Whole(txs, a, b)
  }

  lemma NextRun(txs: seq<Transaction>, start: nat, i: nat)
    requires start < i <= |txs| && CompleteBefore(txs, start)
    requires forall k :: start <= k < i ==> SameBlock(txs[k], txs[start])
    requires start > 0 ==> !SameBlock(txs[start - 1], txs[start])
    requires i < |txs| ==> !SameBlock(txs[i], txs[start])
    ensures IsRun(txs, start, i - 1)
    ensures Whole(txs, start, i - 1) ==> CompleteBefore(txs, i)
  {
    forall a, b | Whole(txs, start, i - 1) && IsRun(txs, a, b) && b < i ensures Whole(txs, a, b) {
      OneRunAt(txs, start, i - 1, a, b);
    }
  }

  /** A run that reaches into another is the same. */
  lemma OneRunAt(txs: seq<Transaction>, i: int, j: int, a: int, b: int)
    requires IsRun(txs, i, j) && IsRun(txs, a, b) && b <= j
    ensures b < i || (a == i && b == j)
  {
    assert a <= i - 1 <= b ==> SameBlock(txs[i - 1], txs[a]);
    assert a <= i <= b ==> SameBlock(txs[i], txs[a]);
    assert i <= a - 1 <= j ==> SameBlock(txs[a - 1], txs[i]);
    assert i <= a <= j ==> SameBlock(txs[a], txs[i]);
    assert i <= b + 1 <= j ==> SameBlock(txs[b + 1], txs[i]);
  }

  method VerifyAllBlocksComplete(txs: seq<Transaction>) returns (ok: bool)
    requires txs != []
    ensures ok <==> AllComplete(txs)
  {
    var lastBlockNumber := txs[0].block;
    var transactionsInBlock := 1;
    ghost var start := 0;
    for i := 1 to |txs|
      invariant start < i && transactionsInBlock == i - start && lastBlockNumber == txs[start].block
      invariant forall k :: start <= k < i ==> SameBlock(txs[k], txs[start])
      invariant start > 0 ==> !SameBlock(txs[start - 1], txs[start])
      invariant CompleteBefore(txs, start)
    {
      if txs[i].block != lastBlockNumber {
        NextRun(txs, start, i);
        if transactionsInBlock != txs[i - 1].count {
          assert !Whole(txs, start, i - 1);
          return false;
        }
        transactionsInBlock := 0;
        lastBlockNumber := txs[i].block;
        start := i;
      }
      transactionsInBlock := transactionsInBlock + 1;
    }
    NextRun(txs, start, |txs|);
    ok := transactionsInBlock == txs[|txs| - 1].count;
    if !ok {
      assert !Whole(txs, start, |txs| - 1);
    }
  }

  // ----- On the transactions of a chain -----

  /** The genesis transactions, and those of each block. */
  datatype Chain = Chain(genesis: seq<Transaction>, txs: int -> seq<Transaction>)

  predicate OfBlock(txs: seq<Transaction>, block: Option<int>) {
    forall i :: 0 <= i < |txs| ==> txs[i].block == block && txs[i].count == |txs| && txs[i].primaryKey.None?
  }

  ghost predicate ValidChain(c: Chain) {
    && c.genesis != [] && OfBlock(c.genesis, None)
    && forall b :: OfBlock(c.txs(b), Some(b))
  }

  function ChainTxs(c: Chain, lo: int, hi: int): seq<Transaction>
    decreases hi - lo
  {
    if lo > hi then [] else c.txs(lo) + ChainTxs(c, lo + 1, hi)
  }

  lemma {:induction false} ChainSplit(c: Chain, lo: int, mid: int, hi: int)
    requires lo <= mid + 1 && mid <= hi
    ensures ChainTxs(c, lo, hi) == ChainTxs(c, lo, mid) + ChainTxs(c, mid + 1, hi)
    decreases mid - lo
  {
    if lo <= mid {
      ChainSplit(c, lo + 1, mid, hi);
      AppendAssoc(c.txs(lo), ChainTxs(c, lo + 1, mid), ChainTxs(c, mid + 1, hi));
    } else {
      assert ChainTxs(c, lo, mid) == [];
    }
  }

  lemma OneBlock(c: Chain, b: int)
    ensures ChainTxs(c, b, b) == c.txs(b)
  {
    assert ChainTxs(c, b + 1, b) == [];
    assert c.txs(b) + [] == c.txs(b);
  }

  lemma ChainSnoc(c: Chain, lo: int, b: int)
    requires lo <= b
    ensures ChainTxs(c, lo, b) == ChainTxs(c, lo, b - 1) + c.txs(b)
  {
    ChainSplit(c, lo, b - 1, b);
    OneBlock(c, b);
  }

  predicate InBlocks(txs: seq<Transaction>, lo: int, hi: int) {
    forall i :: 0 <= i < |txs| ==> txs[i].block.Some? && lo <= txs[i].block.value <= hi
  }

  lemma {:induction false} ChainInBlocks(c: Chain, lo: int, hi: int)
    requires ValidChain(c)
    ensures InBlocks(ChainTxs(c, lo, hi), lo, hi)
    decreases hi - lo
  {
    if lo <= hi {
      ChainInBlocks(c, lo + 1, hi);
      assert OfBlock(c.txs(lo), Some(lo));
    }
  }

  /** A prefix ends within some block, behind the whole of those before. */
  lemma {:induction false} PrefixEnds(c: Chain, lo: int, hi: int, n: nat) returns (b: int, m: nat)
    requires 0 < n <= |ChainTxs(c, lo, hi)|
    ensures lo <= b <= hi && 0 < m <= |c.txs(b)|
    ensures ChainTxs(c, lo, hi)[..n] == ChainTxs(c, lo, b - 1) + c.txs(b)[..m]
    decreases hi - lo
  {
    var first := c.txs(lo);
    if n <= |first| {
      b, m := lo, n;
      assert ChainTxs(c, lo, lo - 1) == [];
    } else {
      b, m := PrefixEnds(c, lo + 1, hi, n - |first|);
      assert ChainTxs(c, lo, hi)[..n] == first + ChainTxs(c, lo + 1, hi)[..n - |first|];
      AppendAssoc(first, ChainTxs(c, lo + 1, b - 1), c.txs(b)[..m]);
    }
  }

  lemma AppendRun(before: seq<Transaction>, whole: seq<Transaction>)
    requires AllComplete(before) && whole != [] && OfBlock(whole, whole[0].block)
    requires before != [] ==> !SameBlock(before[|before| - 1], whole[0])
    ensures AllComplete(before + whole)
  {
    var all := before + whole;
    forall k | |before| <= k < |all| ensures SameBlock(all[k], whole[0]) && all[k].count == |whole| {
      assert all[k] == whole[k - |before|];
    }
    forall i, j | IsRun(all, i, j) ensures Whole(all, i, j) {
      if j < |before| {
        RunOfFirst(before, whole, i, j);
      } else {
        RunOfLast(before, whole, i, j);
      }
    }
  }

  lemma RunOfFirst(before: seq<Transaction>, whole: seq<Transaction>, i: int, j: int)
    requires AllComplete(before) && IsRun(before + whole, i, j) && j < |before|
    ensures Whole(before + whole, i, j)
  {
    var all := before + whole;
    assert forall k :: 0 <= k < |before| ==> all[k] == before[k];
    assert IsRun(before, i, j);
  }

  lemma RunOfLast(before: seq<Transaction>, whole: seq<Transaction>, i: int, j: int)
    requires whole != [] && OfBlock(whole, whole[0].block) && IsRun(before + whole, i, j) && j >= |before|
    requires before != [] ==> !SameBlock(before[|before| - 1], whole[0])
    ensures Whole(before + whole, i, j)
  {
    var all := before + whole;
    assert forall k :: |before| <= k < |all| ==> all[k] == whole[k - |before|];
    assert before != [] ==> all[|before| - 1] == before[|before| - 1];
    assert SameBlock(all[j], all[i]);
  }

  /** Whole blocks pass the check. */
  lemma {:induction false} ChainIsComplete(c: Chain, lo: int, hi: int)
    requires ValidChain(c)
    ensures AllComplete(ChainTxs(c, lo, hi))
    decreases hi - lo
  {
    if lo <= hi {
      ChainIsComplete(c, lo, hi - 1);
      ChainSnoc(c, lo, hi);
      ChainInBlocks(c, lo, hi - 1);
      assert OfBlock(c.txs(hi), Some(hi));
      if c.txs(hi) == [] {
        assert ChainTxs(c, lo, hi - 1) + [] == ChainTxs(c, lo, hi - 1);
      } else {
        AppendRun(ChainTxs(c, lo, hi - 1), c.txs(hi));
      }
    }
  }

  /** Up to the block of their last transaction, the transactions of a range are all. */
  lemma {:induction false} UpToLast(c: Chain, lo: int, hi: int)
    requires ValidChain(c) && ChainTxs(c, lo, hi) != []
    ensures var txs := ChainTxs(c, lo, hi);
            var last := txs[|txs| - 1].block;
            last.Some? && lo <= last.value <= hi && txs == ChainTxs(c, lo, last.value)
    decreases hi - lo
  {
    ChainSnoc(c, lo, hi);
    assert OfBlock(c.txs(hi), Some(hi));
    if c.txs(hi) == [] {
      assert ChainTxs(c, lo, hi - 1) + [] == ChainTxs(c, lo, hi - 1);
      UpToLast(c, lo, hi - 1);
    } else {
      var all := ChainTxs(c, lo, hi);
      assert all[|all| - 1] == c.txs(hi)[|c.txs(hi)| - 1];
    }
  }

  /** Where the last block of an answer starts, and how many transactions it should have. */
  lemma LastBlockOfPrefix(c: Chain, lo: int, b: int, m: nat)
    requires ValidChain(c) && 0 < m <= |c.txs(b)|
    ensures var before := ChainTxs(c, lo, b - 1);
            var txs := before + c.txs(b)[..m];
            LastRunStart(txs) == |before| && txs[|before|].count == |c.txs(b)|
  {
    var before := ChainTxs(c, lo, b - 1);
    var txs := before + c.txs(b)[..m];
    assert OfBlock(c.txs(b), Some(b));
    ChainInBlocks(c, lo, b - 1);
    assert forall i :: |before| <= i < |txs| ==> txs[i] == c.txs(b)[i - |before|];
    LastRunStartIs(txs, |before|);
  }

  ghost predicate WholeBlocks(c: Chain, lo: int, hi: int, txs: seq<Transaction>) {
    && txs != [] && AllComplete(txs)
    && var last := txs[|txs| - 1].block;
       last.Some? && lo <= last.value <= hi && txs == ChainTxs(c, lo, last.value)
  }

  lemma RangeIsWhole(c: Chain, lo: int, b: int, hi: int)
    requires ValidChain(c) && ChainTxs(c, lo, b) != [] && b <= hi
    ensures WholeBlocks(c, lo, hi, ChainTxs(c, lo, b))
  {
    UpToLast(c, lo, b);
    ChainIsComplete(c, lo, b);
  }

  /** The transactions left of an answer are whole blocks from the first on, up to the block of the last of them. */
  lemma DiscardLeavesWholeBlocks(c: Chain, lo: int, hi: int, n: nat)
    requires ValidChain(c) && 0 < n <= |ChainTxs(c, lo, hi)|
    ensures var r := Discarded(ChainTxs(c, lo, hi)[..n]);
            r.Ok? ==> WholeBlocks(c, lo, hi, r.value)
  {
    var b, m := PrefixEnds(c, lo, hi, n);
    var before := ChainTxs(c, lo, b - 1);
    LastBlockOfPrefix(c, lo, b, m);
    if m == |c.txs(b)| {
      assert c.txs(b)[..m] == c.txs(b);
      ChainSnoc(c, lo, b);
      RangeIsWhole(c, lo, b, hi);
    } else if before != [] {
      assert (before + c.txs(b)[..m])[..|before|] == before;
      RangeIsWhole(c, lo, b - 1, hi);
    }
  }
}

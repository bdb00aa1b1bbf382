/**
 * The checks on ETH transfers before they are exported: eth/lib/util.ts, and the worker of eth/eth_worker.ts that makes
 * them.
 */
module EthQuality {
  import opened Common
  import opened Chunks
  import opened StableSorting
  import opened Grouping
  import opened EthOrder

  function BlockOf(e: Item): int {
    e.blockNumber
  }

  function BlocksOf(items: seq<Item>): set<int> {
    set i | 0 <= i < |items| :: items[i].blockNumber
  }

  // ----- Positions within a block -----

  /** The position is that of the transfer before, or the next; the first is 0 or 1. */
  predicate FollowsOn(positions: seq<Option<int>>, i: nat)
    requires i < |positions|
  {
    && positions[i].Some?
    && (i == 0 ==> 0 <= positions[0].value <= 1)
    && (i > 0 ==> positions[i - 1].Some? && positions[i - 1].value <= positions[i].value <= positions[i - 1].value + 1)
  }

  predicate StepsUp(positions: seq<Option<int>>) {
    forall i :: 0 <= i < |positions| ==> FollowsOn(positions, i)
  }

  /** No transaction between the first and the last is missing. */
  lemma {:induction false} NoPositionMissing(positions: seq<Option<int>>, p: int)
    requires StepsUp(positions) && positions != [] && FollowsOn(positions, 0) && FollowsOn(positions, |positions| - 1)
    requires positions[0].value <= p <= positions[|positions| - 1].value
    ensures Some(p) in positions
  {
    var init, last := positions[..|positions| - 1], positions[|positions| - 1];
    if last.value != p {
      assert forall i :: 0 <= i < |init| ==> FollowsOn(positions, i) ==> FollowsOn(init, i);
      NoPositionMissing(init, p);
    }
  }

  function PositionsAt(items: seq<Item>, group: seq<nat>): (r: seq<Option<int>>)
    requires forall n :: 0 <= n < |group| ==> group[n] < |items|
    ensures |r| == |group|
  {
    seq(|group|, n requires 0 <= n < |group| => items[group[n]].transactionPosition)
  }

  function PositionsIn(items: seq<Item>, block: int): seq<Option<int>> {
    PositionsAt(items, IndicesOf(items, BlockOf, block))
  }

  method AssertTransfersWithinBlock(positions: seq<Option<int>>) returns (ok: bool)
    ensures ok <==> StepsUp(positions)
  {
    var expectedTxPosition := 0;
    for i := 0 to |positions|
      invariant forall k :: 0 <= k < i ==> FollowsOn(positions, k)
      invariant if i == 0 then expectedTxPosition == 0 else positions[i - 1] == Some(expectedTxPosition)
    {
      if positions[i] != Some(expectedTxPosition) {
        if positions[i] != Some(expectedTxPosition + 1) {
          assert !FollowsOn(positions, i);
          return false;
        }
        expectedTxPosition := expectedTxPosition + 1;
      }
    }
    return true;
  }

  // ----- Blocks of the range -----

  /** How many transactions a second node has for a block, if it answers. */
  type Verification = int -> Option<nat>

  /** The block is there, or the second node confirms that it is empty. */
  predicate Accounted(blocks: set<int>, verify: Verification, block: int) {
    block in blocks || verify(block) == Some(0)
  }

  ghost predicate AllAccounted(blocks: set<int>, verify: Verification, lo: int, hi: int) {
    forall block :: lo <= block <= hi ==> Accounted(blocks, verify, block)
  }

  method AssertBlocksMatch(keys: seq<int>, lo: int, hi: int, verify: Verification) returns (ok: bool)
    ensures ok <==> AllAccounted(Elements(keys), verify, lo, hi) && |keys| <= hi - lo + 1
  {
    var block := lo;
    while block <= hi
      invariant lo <= block && (lo <= hi ==> block <= hi + 1)
      invariant forall b :: lo <= b < block ==> Accounted(Elements(keys), verify, b)
    {
      if block !in keys {
        if verify(block) != Some(0) {
          assert !Accounted(Elements(keys), verify, block);
          return false;
        }
      }
      block := block + 1;
    }
    return |keys| <= hi - lo + 1;
  }

  /** What passing the checks means. */
  ghost predicate Quality(items: seq<Item>, lo: int, hi: int, verify: Verification) {
    && lo <= hi
    && AllAccounted(BlocksOf(items), verify, lo, hi)
    && |BlocksOf(items)| <= hi - lo + 1
    && forall block :: block in BlocksOf(items) ==> StepsUp(PositionsIn(items, block))
  }

  lemma {:induction false} ElementsCount<K>(keys: seq<K>)
    requires NoDuplicates(keys)
    ensures |Elements(keys)| == |keys|
  {
    if keys != [] {
      var init, last := keys[..|keys| - 1], keys[|keys| - 1];
      ElementsCount(init);
      assert keys == init + [last] && Elements(keys) == Elements(init) + {last};
      assert last !in Elements(init);
    }
  }

  lemma KeysAreBlocks(items: seq<Item>, keys: seq<int>, groups: map<int, seq<nat>>)
    requires Groups(items, BlockOf, keys, groups)
    ensures Elements(keys) == BlocksOf(items) && |keys| == |BlocksOf(items)|
  {
    forall b | b in BlocksOf(items) ensures b in keys {
      var i :| 0 <= i < |items| && items[i].blockNumber == b;
      IndexAtRank(items, BlockOf, i);
    }
    forall b | b in keys ensures b in BlocksOf(items) {
      assert items[IndicesOf(items, BlockOf, b)[0]].blockNumber == b;
    }
    ElementsCount(keys);
  }

  method CheckETHTransfersQuality(items: seq<Item>, lo: int, hi: int, verify: Verification) returns (ok: bool)
    ensures ok <==> Quality(items, lo, hi, verify)
  {
    if lo > hi {
      return false;
    }
    var keys, groups := GroupBy(items, BlockOf);
    KeysAreBlocks(items, keys, groups);
    var matching := AssertBlocksMatch(keys, lo, hi, verify);
    if !matching {
      return false;
    }
    for m := 0 to |keys|
      invariant forall k :: 0 <= k < m ==> StepsUp(PositionsIn(items, keys[k]))
    {
      ok := AssertTransfersWithinBlock(PositionsAt(items, groups[keys[m]]));
      if !ok {
        assert keys[m] in BlocksOf(items);
        return false;
      }
    }
    return true;
  }

  // ----- No transfer outside the range -----

  function RangeSet(lo: int, hi: int): set<int> {
    set b | b in Range(lo, hi)
  }

  lemma RangeSetFacts(lo: int, hi: int)
    requires lo <= hi + 1
    ensures |RangeSet(lo, hi)| == hi - lo + 1
    ensures forall b :: b in RangeSet(lo, hi) <==> lo <= b <= hi
  {
    ElementsCount(Range(lo, hi));
    assert Elements(Range(lo, hi)) == RangeSet(lo, hi);
    forall b | lo <= b <= hi ensures b in Range(lo, hi) {
      assert Range(lo, hi)[b - lo] == b;
    }
  }

  lemma SubsetOfSameSize(a: set<int>, b: set<int>)
    requires a <= b && |b| <= |a|
    ensures a == b
  {
    assert b == a + (b - a) && |b| == |a| + |b - a|;
  }

  /** When every block of the range has transfers, counting blocks is enough to know that none lies outside. */
  lemma NothingOutside(items: seq<Item>, lo: int, hi: int, verify: Verification)
    requires Quality(items, lo, hi, verify) && RangeSet(lo, hi) <= BlocksOf(items)
    ensures BlocksOf(items) == RangeSet(lo, hi)
    ensures forall e :: e in items ==> lo <= e.blockNumber <= hi
  {
    RangeSetFacts(lo, hi);
    SubsetOfSameSize(RangeSet(lo, hi), BlocksOf(items));
    forall e | e in items ensures lo <= e.blockNumber <= hi {
      assert e.blockNumber in BlocksOf(items);
    }
  }

  /** One transfer in each block from lo to hi + 1, but for the one that is empty. */
  function OneEach(lo: int, hi: int, empty: int): (items: seq<Item>)
    requires lo <= empty <= hi
    ensures |items| == hi - lo + 1
    ensures forall k :: 0 <= k < |items| ==>
              items[k].transactionPosition == Some(0)
              && items[k].blockNumber == if lo + k < empty then lo + k else lo + k + 1
  {
    seq(hi - lo + 1, k => Item(false, 0, if lo + k < empty then lo + k else lo + k + 1, Some(0), None, None))
  }

  lemma {:induction false} NoMoreBlocksThanItems(items: seq<Item>)
    ensures |BlocksOf(items)| <= |items|
  {
    if items != [] {
      var init, last := items[..|items| - 1], items[|items| - 1];
      NoMoreBlocksThanItems(init);
      assert BlocksOf(items) == BlocksOf(init) + {last.blockNumber};
    }
  }

  lemma AtStartStepsUp(items: seq<Item>, block: int)
    requires forall k :: 0 <= k < |items| ==> items[k].transactionPosition == Some(0)
    ensures StepsUp(PositionsIn(items, block))
  {
  }

  /** With an empty block in the range, a transfer behind the range passes: the count of blocks still fits. */
  lemma OutsideBlockPasses(lo: int, hi: int, empty: int, verify: Verification)
    requires lo <= empty <= hi && verify(empty) == Some(0)
    ensures Quality(OneEach(lo, hi, empty), lo, hi, verify)
    ensures hi + 1 in BlocksOf(OneEach(lo, hi, empty))
  {
    var items := OneEach(lo, hi, empty);
    NoMoreBlocksThanItems(items);
    assert items[hi - lo].blockNumber == hi + 1;
    forall block | lo <= block <= hi ensures Accounted(BlocksOf(items), verify, block) {
      if block != empty {
        assert items[if block < empty then block - lo else block - lo - 1].blockNumber == block;
      }
    }
    forall block | block in BlocksOf(items) ensures StepsUp(PositionsIn(items, block)) {
      AtStartStepsUp(items, block);
    }
  }

  /** Passing the checks means that no transfer lies outside the range. */
  ghost predicate AdmitsOnlyRange(lo: int, hi: int, verify: Verification) {
    forall items :: Quality(items, lo, hi, verify) ==> BlocksOf(items) <= RangeSet(lo, hi)
  }

  /** It means so exactly when the second node confirms no block of the range as empty. */
  lemma AdmitsOnlyRangeIff(lo: int, hi: int, verify: Verification)
    requires lo <= hi
    ensures AdmitsOnlyRange(lo, hi, verify) <==> forall block :: lo <= block <= hi ==> verify(block) != Some(0)
  {
    RangeSetFacts(lo, hi);
    if empty :| lo <= empty <= hi && verify(empty) == Some(0) {
      OutsideBlockPasses(lo, hi, empty, verify);
      assert hi + 1 !in RangeSet(lo, hi);
    } else {
      forall items | Quality(items, lo, hi, verify) ensures BlocksOf(items) <= RangeSet(lo, hi) {
        forall block | block in RangeSet(lo, hi) ensures block in BlocksOf(items) {
          assert Accounted(BlocksOf(items), verify, block);
        }
        NothingOutside(items, lo, hi, verify);
      }
    }
  }

  // ----- The worker -----

  class EthWorker {
    const checkQuality: bool
    const assignPrimaryKey: bool
    var lastExportedBlock: int
    var lastPrimaryKey: int

    constructor (checkQuality: bool, assignPrimaryKey: bool, lastExportedBlock: int, lastPrimaryKey: int)
      ensures this.checkQuality == checkQuality && this.assignPrimaryKey == assignPrimaryKey
      ensures this.lastExportedBlock == lastExportedBlock && this.lastPrimaryKey == lastPrimaryKey
    {
      this.checkQuality, this.assignPrimaryKey := checkQuality, assignPrimaryKey;
      this.lastExportedBlock, this.lastPrimaryKey := lastExportedBlock, lastPrimaryKey;
    }

    /** What `work` does with the transfers it has fetched and transformed. */
    method Export(events: array<Item>, lo: int, hi: int, blocks: set<int>, verify: Verification)
      returns (r: Result<seq<Item>>)
      modifies this, events
      ensures r.Ok? <==>
              (checkQuality ==> Quality(StableSorted(old(events[..]), TransactionOrder), lo, hi, verify))
              && CollectEndOfBlocks(lo, hi, blocks).Ok?
      ensures r.Ok? ==>
                && r.value == (if assignPrimaryKey then WithKeys(Batch(old(events[..]), lo, hi), old(lastPrimaryKey))
                               else Batch(old(events[..]), lo, hi))
                && lastExportedBlock == hi
                && lastPrimaryKey == old(lastPrimaryKey) + if assignPrimaryKey then events.Length else 0
      ensures r.Err? ==> lastExportedBlock == old(lastExportedBlock) && lastPrimaryKey == old(lastPrimaryKey)
    {
      var ok := SortAndCheck(events, checkQuality, lo, hi, verify);
      if !ok {
        return Err("quality");
      }
      var eobEvents := CollectEndOfBlocks(lo, hi, blocks);
      if eobEvents.Err? {
        return Err(eobEvents.error);
      }
      var merged := MergeSortedArrays(events[..], eobEvents.value, TransactionOrder);
      var mergedEvents := Finish(merged, if assignPrimaryKey then Some(lastPrimaryKey) else None);
      if assignPrimaryKey {
        lastPrimaryKey := lastPrimaryKey + events.Length;
      }
      lastExportedBlock := hi;
      return Ok(mergedEvents);
    }
  }

  method SortAndCheck(events: array<Item>, check: bool, lo: int, hi: int, verify: Verification) returns (ok: bool)
    modifies events
    ensures events[..] == StableSorted(old(events[..]), TransactionOrder)
    ensures ok <==> (check ==> Quality(events[..], lo, hi, verify))
  {
    TransactionOrderOrders();
    StableSort(events, TransactionOrder);
    ok := true;
    if check {
      ok := CheckETHTransfersQuality(events[..], lo, hi, verify);
    }
  }

  /** Internal positions, and keys from the given one on. */
  method Finish(merged: seq<Item>, lastPrimaryKey: Option<int>) returns (r: seq<Item>)
    ensures r == match lastPrimaryKey
                 case Some(key) => WithKeys(Positioned(merged), key)
                 case None => Positioned(merged)
  {
    var mergedEvents := new Item[|merged|](i requires 0 <= i < |merged| => merged[i]);
    assert mergedEvents[..] == merged;
    AssignInternalTransactionPosition(mergedEvents);
    if lastPrimaryKey.Some? {
      ExtendEventsWithPrimaryKey(mergedEvents, lastPrimaryKey.value);
    }
    return mergedEvents[..];
  }
}

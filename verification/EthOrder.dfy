/**
 * The order of ETH transfers and end-of-block marks: eth/lib/util.ts, eth/lib/end_of_block.ts and the last part
 * of `work` in eth/eth_worker.ts.
 */
module EthOrder {
  import opened Common
  import opened Chunks
  import opened StableSorting
  import opened Grouping

  /** A transfer, with what it moves as `content`, or an end-of-block mark. */
  datatype Item = Item(eob: bool, content: int, blockNumber: int, transactionPosition: Option<int>,
                       internalTxPosition: Option<int>, primaryKey: Option<int>)

  const MAX_TX_POSITION := 0x7FFF_FFFF

  function PositionOf(e: Item): int {
    e.transactionPosition.GetOr(-1)
  }

  function TransactionOrder(a: Item, b: Item): int {
    if a.blockNumber != b.blockNumber then a.blockNumber - b.blockNumber
    else if PositionOf(a) != PositionOf(b) then PositionOf(a) - PositionOf(b)
    else a.internalTxPosition.GetOr(-1) - b.internalTxPosition.GetOr(-1)
  }

  lemma TransactionOrderOrders()
    ensures Ordering(TransactionOrder)
  {
    forall a, b, c ensures Ordered(TransactionOrder, a, b, c) {
    }
  }

  // ----- Merging -----

  /** Two lists as one; where they tie, the second goes first. */
  function Merge<T>(a: seq<T>, b: seq<T>, cmp: Comparator<T>): seq<T>
    decreases |a| + |b|
  {
    if a == [] then b
    else if b == [] then a
    else if cmp(a[0], b[0]) < 0 then [a[0]] + Merge(a[1..], b, cmp)
    else [b[0]] + Merge(a, b[1..], cmp)
  }

  method MergeSortedArrays<T>(a: seq<T>, b: seq<T>, cmp: Comparator<T>) returns (merged: seq<T>)
    ensures merged == Merge(a, b, cmp)
  {
    merged := [];
    var i, j := 0, 0;
    while i < |a| && j < |b|
      invariant i <= |a| && j <= |b|
      invariant merged + Merge(a[i..], b[j..], cmp) == Merge(a, b, cmp)
      decreases |a| - i + |b| - j
    {
      MergeStep(merged, a, i, b, j, cmp);
      if cmp(a[i], b[j]) < 0 {
        merged := merged + [a[i]];
        i := i + 1;
      } else {
        merged := merged + [b[j]];
        j := j + 1;
      }
    }
    merged := merged + a[i..] + b[j..];
  }

  lemma MergeStep<T>(before: seq<T>, a: seq<T>, i: nat, b: seq<T>, j: nat, cmp: Comparator<T>)
    requires i < |a| && j < |b|
    ensures before + Merge(a[i..], b[j..], cmp) ==
            if cmp(a[i], b[j]) < 0 then before + [a[i]] + Merge(a[i + 1..], b[j..], cmp)
            else before + [b[j]] + Merge(a[i..], b[j + 1..], cmp)
  {
    assert a[i..][1..] == a[i + 1..] && b[j..][1..] == b[j + 1..];
    AppendAssoc(before, [a[i]], Merge(a[i + 1..], b[j..], cmp));
    AppendAssoc(before, [b[j]], Merge(a[i..], b[j + 1..], cmp));
  }

  lemma FirstCounted<T>(x: T, s: seq<T>)
    ensures multiset([x] + s) == multiset{x} + multiset(s)
  {
  }

  /** Nothing is lost or doubled in merging, and what is selected from the merge is the merge of what is selected. */
  lemma {:induction false} MergePermutes<T>(a: seq<T>, b: seq<T>, cmp: Comparator<T>)
    ensures multiset(Merge(a, b, cmp)) == multiset(a) + multiset(b)
    decreases |a| + |b|
  {
    if a != [] && b != [] {
      if cmp(a[0], b[0]) < 0 {
        MergePermutes(a[1..], b, cmp);
        FirstCounted(a[0], a[1..]);
        FirstCounted(a[0], Merge(a[1..], b, cmp));
        assert a == [a[0]] + a[1..];
      } else {
        MergePermutes(a, b[1..], cmp);
        FirstCounted(b[0], b[1..]);
        FirstCounted(b[0], Merge(a, b[1..], cmp));
        assert b == [b[0]] + b[1..];
      }
    }
  }

  lemma MergeLength<T>(a: seq<T>, b: seq<T>, cmp: Comparator<T>)
    ensures |Merge(a, b, cmp)| == |a| + |b|
    decreases |a| + |b|
  {
  }

  lemma MergeMember<T>(a: seq<T>, b: seq<T>, cmp: Comparator<T>, x: T)
    ensures x in Merge(a, b, cmp) <==> x in a || x in b
  {
    MergePermutes(a, b, cmp);
    assert x in Merge(a, b, cmp) <==> x in multiset(Merge(a, b, cmp));
  }

  lemma SortedCons<T>(x: T, t: seq<T>, cmp: Comparator<T>)
    requires Sorted(t, cmp) && forall y :: y in t ==> cmp(x, y) <= 0
    ensures Sorted([x] + t, cmp)
  {
  }

  lemma FirstIsLeast<T(!new)>(s: seq<T>, cmp: Comparator<T>, x: T)
    requires Ordering(cmp) && Sorted(s, cmp) && x in s
    ensures cmp(s[0], x) <= 0
  {
    Compare(cmp, x, x, x);
  }

  /** Merging sorted lists gives a sorted list. */
  lemma {:induction false} MergeSorts<T(!new)>(a: seq<T>, b: seq<T>, cmp: Comparator<T>)
    requires Ordering(cmp) && Sorted(a, cmp) && Sorted(b, cmp)
    ensures Sorted(Merge(a, b, cmp), cmp)
    decreases |a| + |b|
  {
    if a != [] && b != [] {
      Compare(cmp, a[0], b[0], b[0]);
      Compare(cmp, a[0], a[0], b[0]);
      Compare(cmp, b[0], b[0], a[0]);
      if cmp(a[0], b[0]) < 0 {
        MergeSorts(a[1..], b, cmp);
        LeastFirst(a[0], a, b, Merge(a[1..], b, cmp), cmp);
      } else {
        MergeSorts(a, b[1..], cmp);
        LeastFirst(b[0], a, b, Merge(a, b[1..], cmp), cmp);
      }
    }
  }

  lemma LeastFirst<T(!new)>(x: T, a: seq<T>, b: seq<T>, rest: seq<T>, cmp: Comparator<T>)
    requires Ordering(cmp) && Sorted(a, cmp) && Sorted(b, cmp) && Sorted(rest, cmp) && a != [] && b != []
    requires cmp(x, a[0]) <= 0 && cmp(x, b[0]) <= 0
    requires rest == Merge(a[1..], b, cmp) || rest == Merge(a, b[1..], cmp)
    ensures Sorted([x] + rest, cmp)
  {
    forall y | y in rest ensures cmp(x, y) <= 0 {
      MergeMember(a[1..], b, cmp, y);
      MergeMember(a, b[1..], cmp, y);
      if y in a {
        FirstIsLeast(a, cmp, y);
        Compare(cmp, x, a[0], y);
      } else {
        FirstIsLeast(b, cmp, y);
        Compare(cmp, x, b[0], y);
      }
    }
    SortedCons(x, rest, cmp);
  }

  // ----- End-of-block marks -----

  function MarkOf(block: int): Item {
    Item(true, 0, block, Some(MAX_TX_POSITION), Some(0), None)
  }

  function Marks(lo: int, hi: int): (r: seq<Item>)
    ensures |r| == |Range(lo, hi)| && forall i :: 0 <= i < |r| ==> r[i] == MarkOf(lo + i)
  {
    MapSeq(Range(lo, hi), MarkOf)
  }

  /** One mark for each block, the last included; every block has to be known, and the range not be worse than empty. */
  function CollectEndOfBlocks(lo: int, hi: int, blocks: set<int>): Result<seq<Item>> {
    if hi - lo + 1 < 0 then Err("Invalid array length")
    else if exists b :: lo <= b <= hi && b !in blocks then Err("block not fetched")
    else Ok(Marks(lo, hi))
  }

  /** A range that a lagging node turned round has no marks: making them throws, so no such range is exported. */
  lemma InvertedRangeThrows(lo: int, hi: int, blocks: set<int>)
    ensures CollectEndOfBlocks(lo, hi, blocks).Ok? ==> hi >= lo - 1
    ensures hi == lo - 1 ==> CollectEndOfBlocks(lo, hi, blocks) == Ok([])
  {
    assert hi == lo - 1 ==> Marks(lo, hi) == [];
  }

  /** Otherwise making them fails only for a block that was not fetched; there is one for each block, in order. */
  lemma MarksIff(lo: int, hi: int, blocks: set<int>)
    ensures var r := CollectEndOfBlocks(lo, hi, blocks);
            && (r.Ok? <==> lo <= hi + 1 && forall b :: lo <= b <= hi ==> b in blocks)
            && (r.Ok? ==> |r.value| == hi + 1 - lo
                          && forall i :: 0 <= i < |r.value| ==>
                               r.value[i] == Item(true, 0, lo + i, Some(0x7FFF_FFFF), Some(0), None))
  {
  }

  lemma MarksAreSorted(lo: int, hi: int)
    ensures Sorted(Marks(lo, hi), TransactionOrder)
  {
  }

  // ----- Internal positions -----

  /** What the positions count: transfers of one transaction of one block. */
  type Pair = (int, Option<int>)

  function PairOf(e: Item): Pair {
    (e.blockNumber, e.transactionPosition)
  }

  function Positioned(items: seq<Item>): (r: seq<Item>)
    ensures |r| == |items|
  {
    seq(|items|, i requires 0 <= i < |items| =>
      items[i].(internalTxPosition := Some(Rank(items, PairOf, i))))
  }

  /** The items when the groups `done`, and the first n of group k, have their positions. */
  ghost function PartlyPositioned(items: seq<Item>, done: set<Pair>, k: Pair, n: nat): (r: seq<Item>)
    ensures |r| == |items|
  {
    seq(|items|, i requires 0 <= i < |items| =>
      if PairOf(items[i]) in done || (PairOf(items[i]) == k && Rank(items, PairOf, i) < n)
      then items[i].(internalTxPosition := Some(Rank(items, PairOf, i))) else items[i])
  }

  lemma PositionStep(items: seq<Item>, done: set<Pair>, k: Pair, n: nat)
    requires k !in done && n < |IndicesOf(items, PairOf, k)|
    ensures var i := IndicesOf(items, PairOf, k)[n];
            var now := PartlyPositioned(items, done, k, n);
            PartlyPositioned(items, done, k, n + 1) == now[i := now[i].(internalTxPosition := Some(n))]
  {
    var i := IndicesOf(items, PairOf, k)[n];
    var now, next := PartlyPositioned(items, done, k, n), PartlyPositioned(items, done, k, n + 1);
    RankAtIndex(items, PairOf, k, n);
    forall j | 0 <= j < |items| && j != i ensures next[j] == now[j] {
      IndexAtRank(items, PairOf, j);
    }
  }

  lemma GroupPositioned(items: seq<Item>, done: set<Pair>, k: Pair, other: Pair)
    requires k !in done
    ensures PartlyPositioned(items, done, k, |IndicesOf(items, PairOf, k)|)
            == PartlyPositioned(items, done + {k}, other, 0)
    ensures PartlyPositioned(items, done, other, 0) == PartlyPositioned(items, done, k, 0)
  {
    forall i | 0 <= i < |items|
      ensures PairOf(items[i]) == k ==> Rank(items, PairOf, i) < |IndicesOf(items, PairOf, k)|
    {
      IndexAtRank(items, PairOf, i);
    }
  }

  /** Write the positions of one group. */
  method PositionGroup(transfers: array<Item>, group: seq<nat>, ghost items: seq<Item>, ghost done: set<Pair>,
                       ghost k: Pair)
    requires group == IndicesOf(items, PairOf, k) && k !in done
    requires transfers[..] == PartlyPositioned(items, done, k, 0)
    modifies transfers
    ensures transfers[..] == PartlyPositioned(items, done, k, |group|)
  {
    for n := 0 to |group|
      invariant transfers[..] == PartlyPositioned(items, done, k, n)
    {
      PositionStep(items, done, k, n);
      assert transfers.Length == |transfers[..]| == |items|;
      transfers[group[n]] := transfers[group[n]].(internalTxPosition := Some(n));
    }
  }

  lemma PositionedEnds(items: seq<Item>, keys: seq<Pair>, groups: map<Pair, seq<nat>>, k: Pair)
    requires Groups(items, PairOf, keys, groups)
    ensures PartlyPositioned(items, {}, k, 0) == items
    ensures PartlyPositioned(items, Elements(keys), k, 0) == Positioned(items)
  {
    forall i | 0 <= i < |items| ensures PairOf(items[i]) in keys {
      IndexAtRank(items, PairOf, i);
    }
  }

  ghost function Elements<K>(keys: seq<K>): set<K> {
    set k | k in keys
  }

  lemma NextKey<K>(keys: seq<K>, m: nat)
    requires m < |keys| && NoDuplicates(keys)
    ensures keys[m] !in Elements(keys[..m])
    ensures Elements(keys[..m + 1]) == Elements(keys[..m]) + {keys[m]}
  {
    assert keys[..m + 1] == keys[..m] + [keys[m]];
  }

  method AssignInternalTransactionPosition(transfers: array<Item>)
    modifies transfers
    ensures transfers[..] == Positioned(old(transfers[..]))
  {
    ghost var items := transfers[..];
    ghost var any := (0, None);
    var keys, groups := GroupBy(transfers[..], PairOf);
    PositionedEnds(items, keys, groups, any);
    for m := 0 to |keys|
      invariant transfers[..] == PartlyPositioned(items, Elements(keys[..m]), any, 0)
    {
      ghost var done := Elements(keys[..m]);
      NextKey(keys, m);
      GroupPositioned(items, done, keys[m], any);
      PositionGroup(transfers, groups[keys[m]], items, done, keys[m]);
    }
    assert keys[..|keys|] == keys;
  }

  // ----- Keys -----

  function WithKeys(items: seq<Item>, lastPrimaryKey: int): (r: seq<Item>)
    ensures |r| == |items|
  {
    seq(|items|, i requires 0 <= i < |items| => items[i].(primaryKey := Some(lastPrimaryKey + i + 1)))
  }

  /** The items when the first i have their keys. */
  ghost function PartlyKeyed(items: seq<Item>, lastPrimaryKey: int, i: nat): (r: seq<Item>)
    requires i <= |items|
    ensures |r| == |items| && forall k :: i <= k < |items| ==> r[k] == items[k]
  {
    WithKeys(items, lastPrimaryKey)[..i] + items[i..]
  }

  lemma KeyStep(items: seq<Item>, lastPrimaryKey: int, i: nat)
    requires i < |items|
    ensures PartlyKeyed(items, lastPrimaryKey, i)[i := items[i].(primaryKey := Some(lastPrimaryKey + i + 1))]
            == PartlyKeyed(items, lastPrimaryKey, i + 1)
  {
  }

  lemma KeysEnd(items: seq<Item>, lastPrimaryKey: int)
    ensures PartlyKeyed(items, lastPrimaryKey, 0) == items
    ensures PartlyKeyed(items, lastPrimaryKey, |items|) == WithKeys(items, lastPrimaryKey)
  {
  }

  method ExtendEventsWithPrimaryKey(events: array<Item>, lastPrimaryKey: int)
    modifies events
    ensures events[..] == WithKeys(old(events[..]), lastPrimaryKey)
  {
    ghost var items := events[..];
    KeysEnd(items, lastPrimaryKey);
    for i := 0 to events.Length
      invariant events[..] == PartlyKeyed(items, lastPrimaryKey, i)
    {
      KeyStep(items, lastPrimaryKey, i);
      assert events[i] == items[i];
      events[i] := events[i].(primaryKey := Some(lastPrimaryKey + i + 1));
    }
  }

  // ----- One batch -----

  /** What is merged: the transfers in order, and the marks. */
  function Merged(transfers: seq<Item>, lo: int, hi: int): seq<Item> {
    Merge(StableSorted(transfers, TransactionOrder), Marks(lo, hi), TransactionOrder)
  }

  function Batch(transfers: seq<Item>, lo: int, hi: int): seq<Item> {
    Positioned(Merged(transfers, lo, hi))
  }

  predicate IsTransferOf(e: Item, lo: int, hi: int) {
    && !e.eob && lo <= e.blockNumber <= hi
    && (e.transactionPosition.Some? ==> 0 <= e.transactionPosition.value < MAX_TX_POSITION)
  }

  /** Transfers of the range, at positions that blocks have. */
  ghost predicate TransfersOf(transfers: seq<Item>, lo: int, hi: int) {
    forall e :: e in transfers ==> IsTransferOf(e, lo, hi)
  }

  /**
   * A batch is the transfers and one mark for each block, none lost and none doubled, in the order of the comparator.
   */
  lemma BatchIsComplete(transfers: seq<Item>, lo: int, hi: int)
    ensures multiset(Merged(transfers, lo, hi)) == multiset(transfers) + multiset(Marks(lo, hi))
    ensures Sorted(Merged(transfers, lo, hi), TransactionOrder)
  {
    TransactionOrderOrders();
    StableSortedPermutes(transfers, TransactionOrder);
    StableSortedSorts(transfers, TransactionOrder);
    MarksAreSorted(lo, hi);
    MergePermutes(StableSorted(transfers, TransactionOrder), Marks(lo, hi), TransactionOrder);
    MergeSorts(StableSorted(transfers, TransactionOrder), Marks(lo, hi), TransactionOrder);
  }

  lemma MergedItem(transfers: seq<Item>, lo: int, hi: int, e: Item)
    requires TransfersOf(transfers, lo, hi)
    ensures e in Merged(transfers, lo, hi)
            <==> e in transfers || (lo <= e.blockNumber <= hi && e == MarkOf(e.blockNumber))
    ensures e in Merged(transfers, lo, hi) && e.eob ==> e == MarkOf(e.blockNumber)
  {
    BatchIsComplete(transfers, lo, hi);
    assert e in Merged(transfers, lo, hi) <==> e in multiset(Merged(transfers, lo, hi));
    if lo <= e.blockNumber <= hi && e == MarkOf(e.blockNumber) {
      assert Marks(lo, hi)[e.blockNumber - lo] == e;
    }
  }

  lemma MarkIsOnce(transfers: seq<Item>, lo: int, hi: int, block: int)
    requires TransfersOf(transfers, lo, hi)
    ensures multiset(Merged(transfers, lo, hi))[MarkOf(block)] <= 1
  {
    BatchIsComplete(transfers, lo, hi);
    CountOnce(Marks(lo, hi), MarkOf(block));
    assert MarkOf(block) !in transfers;
  }

  /** The mark of a block comes after everything else of the block. */
  lemma MarksAreLast(transfers: seq<Item>, lo: int, hi: int, i: nat, j: nat)
    requires TransfersOf(transfers, lo, hi) && i < j < |Merged(transfers, lo, hi)|
    requires Merged(transfers, lo, hi)[i].blockNumber == Merged(transfers, lo, hi)[j].blockNumber
    ensures !Merged(transfers, lo, hi)[i].eob
  {
    var m := Merged(transfers, lo, hi);
    BatchIsComplete(transfers, lo, hi);
    MergedItem(transfers, lo, hi, m[i]);
    MergedItem(transfers, lo, hi, m[j]);
    assert TransactionOrder(m[i], m[j]) <= 0;
    if m[i].eob {
      assert m[j] == m[i];
      TwiceCounted(m, i, j);
      MarkIsOnce(transfers, lo, hi, m[i].blockNumber);
    }
  }

  /** The order readers see: block, transaction, transfer within the transaction. */
  predicate Before(a: Item, b: Item) {
    a.blockNumber < b.blockNumber
    || (a.blockNumber == b.blockNumber
        && (PositionOf(a) < PositionOf(b)
            || (PositionOf(a) == PositionOf(b) && a.internalTxPosition.GetOr(-1) < b.internalTxPosition.GetOr(-1))))
  }

  predicate HasMark(r: seq<Item>, block: int) {
    exists i :: 0 <= i < |r| && r[i].eob && r[i].blockNumber == block
  }

  lemma SamePlaceSamePair(transfers: seq<Item>, lo: int, hi: int, a: Item, b: Item)
    requires TransfersOf(transfers, lo, hi) && a in Merged(transfers, lo, hi) && b in Merged(transfers, lo, hi)
    requires a.blockNumber == b.blockNumber && PositionOf(a) == PositionOf(b)
    ensures PairOf(a) == PairOf(b)
  {
    MergedItem(transfers, lo, hi, a);
    MergedItem(transfers, lo, hi, b);
  }

  /**
   * A batch holds its records in strictly increasing order of block, transaction position and internal
   * position, each block ends with its one mark, and every block of the range has one.
   */
  lemma BatchIsOrdered(transfers: seq<Item>, lo: int, hi: int)
    requires TransfersOf(transfers, lo, hi)
    ensures var r := Batch(transfers, lo, hi);
            && (forall i, j :: 0 <= i < j < |r| ==> Before(r[i], r[j]))
            && (forall i, j :: 0 <= i < j < |r| && r[i].blockNumber == r[j].blockNumber ==> !r[i].eob)
            && forall block :: lo <= block <= hi ==> HasMark(r, block)
  {
    var m, r := Merged(transfers, lo, hi), Batch(transfers, lo, hi);
    BatchIsComplete(transfers, lo, hi);
    forall i, j | 0 <= i < j < |r| ensures Before(r[i], r[j]) {
      assert TransactionOrder(m[i], m[j]) <= 0;
      if m[i].blockNumber == m[j].blockNumber && PositionOf(m[i]) == PositionOf(m[j]) {
        SamePlaceSamePair(transfers, lo, hi, m[i], m[j]);
        RanksGrow(m, PairOf, i, j);
      }
    }
    forall i, j | 0 <= i < j < |r| && r[i].blockNumber == r[j].blockNumber ensures !r[i].eob {
      MarksAreLast(transfers, lo, hi, i, j);
    }
    forall block | lo <= block <= hi ensures HasMark(r, block) {
      MergedItem(transfers, lo, hi, MarkOf(block));
      var i :| 0 <= i < |m| && m[i] == MarkOf(block);
      assert r[i].eob && r[i].blockNumber == block;
    }
  }

  lemma {:induction false} SameGroups(a: seq<Item>, b: seq<Item>, k: Pair)
    requires |a| == |b| && forall i :: 0 <= i < |a| ==> PairOf(a[i]) == PairOf(b[i])
    ensures IndicesOf(a, PairOf, k) == IndicesOf(b, PairOf, k)
  {
    if a != [] {
      SameGroups(a[..|a| - 1], b[..|b| - 1], k);
    }
  }

  /** The internal positions of a transaction's transfers are 0, 1, 2 and so on, in order. */
  lemma InternalPositionsCount(items: seq<Item>, k: Pair, n: nat)
    requires n < |IndicesOf(Positioned(items), PairOf, k)|
    ensures Positioned(items)[IndicesOf(Positioned(items), PairOf, k)[n]].internalTxPosition == Some(n)
  {
    SameGroups(Positioned(items), items, k);
    RankAtIndex(items, PairOf, k, n);
  }

  /**
   * Within a call the keys are consecutive. The worker counts only the transfers, though: the next call
   * starts as many keys too low as this one has blocks.
   */
  lemma NextCallReusesKeys(transfers: seq<Item>, lo: int, hi: int, lastPrimaryKey: int, i: nat)
    requires lo <= hi && i < |Batch(transfers, lo, hi)|
    ensures var r := WithKeys(Batch(transfers, lo, hi), lastPrimaryKey);
            var next := lastPrimaryKey + |transfers| + 1;
            && r[i].primaryKey == Some(lastPrimaryKey + 1 + i)
            && r[|r| - 1].primaryKey.value == next + (hi - lo)
  {
    StableSortedPermutes(transfers, TransactionOrder);
    SameLength(StableSorted(transfers, TransactionOrder), transfers);
    MergeLength(StableSorted(transfers, TransactionOrder), Marks(lo, hi), TransactionOrder);
  }
}

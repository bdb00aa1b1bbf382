/**
 * What a batch of transfers exports: keyed, with the keyed copies of overwritten events merged in (the end of
 * `work` in erc20/erc20_worker.ts), and what the keys promise.
 */
module EventBatches {
  import opened Common
  import opened StableSorting
  import opened ContractOverwrites
  import opened EventKeys

  function Merged(events: seq<Event>, over: seq<Event>): seq<Event> {
    if over == [] then events else StableSorted(events + over, PrimaryKeyOrder)
  }

  function KeyedEvents(events: seq<Event>): seq<Event> {
    MapSeq(StableSorted(events, TransactionOrder), WithKey)
  }

  function ExportBatch(events: seq<Event>, overwrites: seq<ContractOverwrite>, rescale: Rescale): seq<Event> {
    Merged(KeyedEvents(events), Keyed(Extracted(events, overwrites, rescale), events))
  }

  // ----- Keys stay in the range of their block -----

  predicate KeyInBlock(e: Event) {
    e.primaryKey.Some? && e.primaryKey.value / PRIMARY_KEY_MULTIPLIER == e.transfer.blockNumber
  }

  ghost predicate KeysInBlocks(s: seq<Event>) {
    forall e :: e in s ==> KeyInBlock(e)
  }

  ghost predicate LogIndexesNotNegative(events: seq<Event>) {
    forall e :: e in events ==> e.transfer.logIndex >= 0
  }

  /** Every copy is of an event of its block, as the extraction makes sure. */
  ghost predicate CopiesOf(over: seq<Event>, events: seq<Event>) {
    forall e :: e in over ==> MaxLog(events, e.transfer.blockNumber).Some?
  }

  ghost predicate NoOverflow(events: seq<Event>, over: seq<Event>) {
    forall b :: !Overflows(events, over, b)
  }

  lemma KeyOfPlaceInBlock(block: int, index: int)
    requires index >= 0
    ensures KeyOfPlace(block, index) / PRIMARY_KEY_MULTIPLIER == block <==> index < PRIMARY_KEY_MULTIPLIER
  {
  }

  lemma PlaceOfKeyIsUnique(b: int, i: int, d: int, k: int)
    requires 0 <= i < PRIMARY_KEY_MULTIPLIER && 0 <= k < PRIMARY_KEY_MULTIPLIER
    requires KeyOfPlace(b, i) == KeyOfPlace(d, k)
    ensures b == d && i == k
  {
  }

  lemma {:induction false} CountAtPrefix(over: seq<Event>, i: nat, j: nat, block: int)
    requires i <= j <= |over|
    ensures CountAt(over[..i], block) <= CountAt(over[..j], block)
    decreases j
  {
    if i < j {
      CountAtPrefix(over, i, j - 1, block);
      CountAtStep(over, j - 1, block);
    }
  }

  /** Before an overwritten event, fewer of its block have been counted than there are. */
  lemma CountBefore(over: seq<Event>, j: nat)
    requires j < |over|
    ensures var b := over[j].transfer.blockNumber;
            CountAt(over[..j], b) < CountAt(over[..j + 1], b) <= CountAt(over, b)
  {
    var b := over[j].transfer.blockNumber;
    CountAtStep(over, j, b);
    CountAtPrefix(over, j + 1, |over|, b);
    assert over[..|over|] == over;
  }

  /** The last overwritten event of a block. */
  lemma {:induction false} LastOfBlock(over: seq<Event>, block: int) returns (j: nat)
    requires CountAt(over, block) > 0
    ensures j < |over| && over[j].transfer.blockNumber == block
    ensures CountAt(over[..j], block) == CountAt(over, block) - 1
  {
    j := |over| - 1;
    if over[j].transfer.blockNumber != block {
      var init := over[..j];
      j := LastOfBlock(init, block);
      assert over[..j] == init[..j];
    }
  }

  lemma OverIndexBounds(events: seq<Event>, over: seq<Event>, j: nat)
    requires j < |over| && CopiesOf(over, events) && LogIndexesNotNegative(events)
    ensures var b := over[j].transfer.blockNumber;
            var index := OverIndex(MaxLog(events, b), CountAt(over[..j], b));
            0 <= MaxLog(events, b).value < index <= MaxLog(events, b).value + CountAt(over, b)
            && OverKey(events, over, j) == KeyOfPlace(b, index)
  {
    var b := over[j].transfer.blockNumber;
    assert over[j] in over;
    MaxLogIsGreatest(events, b);
    CountBefore(over, j);
  }

  lemma EventIndexBounds(events: seq<Event>, e: Event)
    requires e in events && LogIndexesNotNegative(events)
    ensures var b := e.transfer.blockNumber;
            MaxLog(events, b).Some? && 0 <= e.transfer.logIndex <= MaxLog(events, b).value
  {
    MaxLogIsGreatest(events, e.transfer.blockNumber);
  }

  /** An overflow puts a key in the range of another block. */
  lemma OverflowLeavesBlock(events: seq<Event>, over: seq<Event>, b: int)
    requires LogIndexesNotNegative(events) && CopiesOf(over, events) && Overflows(events, over, b)
    ensures !KeysInBlocks(MapSeq(events, WithKey)) || !KeysInBlocks(Keyed(over, events))
  {
    MaxLogIsGreatest(events, b);
    var max := MaxLog(events, b).value;
    if CountAt(over, b) == 0 {
      var e :| e in events && At(e, b, max);
      var i :| 0 <= i < |events| && events[i] == e;
      KeyOfPlaceInBlock(b, max);
      assert MapSeq(events, WithKey)[i] in MapSeq(events, WithKey) && !KeyInBlock(MapSeq(events, WithKey)[i]);
    } else {
      var j := LastOfBlock(over, b);
      OverIndexBounds(events, over, j);
      KeyOfPlaceInBlock(b, OverIndex(MaxLog(events, b), CountAt(over[..j], b)));
      assert Keyed(over, events)[j] in Keyed(over, events) && !KeyInBlock(Keyed(over, events)[j]);
    }
  }

  /** Without overflow every key divided by the multiplier is its block, and an overflow breaks this. */
  lemma KeysFitIffNoOverflow(events: seq<Event>, over: seq<Event>)
    requires LogIndexesNotNegative(events) && CopiesOf(over, events)
    ensures KeysInBlocks(MapSeq(events, WithKey)) && KeysInBlocks(Keyed(over, events)) <==> NoOverflow(events, over)
  {
    if NoOverflow(events, over) {
      forall e | e in MapSeq(events, WithKey) ensures KeyInBlock(e) {
        var i :| 0 <= i < |events| && e == WithKey(events[i]);
        var b := events[i].transfer.blockNumber;
        EventIndexBounds(events, events[i]);
        assert !Overflows(events, over, b);
        KeyOfPlaceInBlock(b, events[i].transfer.logIndex);
      }
      forall e | e in Keyed(over, events) ensures KeyInBlock(e) {
        var j :| 0 <= j < |over| && e == Keyed(over, events)[j];
        var b := over[j].transfer.blockNumber;
        OverIndexBounds(events, over, j);
        assert !Overflows(events, over, b);
        KeyOfPlaceInBlock(b, OverIndex(MaxLog(events, b), CountAt(over[..j], b)));
      }
    } else {
      var b :| Overflows(events, over, b);
      OverflowLeavesBlock(events, over, b);
    }
  }

  // ----- Keys are unique -----

  ghost predicate DistinctPlaces(events: seq<Event>) {
    forall i, j :: 0 <= i < j < |events| ==>
      !At(events[i], events[j].transfer.blockNumber, events[j].transfer.logIndex)
  }

  ghost predicate DistinctKeys(s: seq<Event>) {
    forall i, j :: 0 <= i < j < |s| ==> s[i].primaryKey != s[j].primaryKey
  }

  /** The place a key encodes. */
  function IndexOf(events: seq<Event>, over: seq<Event>, k: nat): int
    requires k < |events| + |over|
  {
    if k < |events| then events[k].transfer.logIndex
    else
      var b := over[k - |events|].transfer.blockNumber;
      OverIndex(MaxLog(events, b), CountAt(over[..k - |events|], b))
  }

  function BlockAt(events: seq<Event>, over: seq<Event>, k: nat): int
    requires k < |events| + |over|
  {
    if k < |events| then events[k].transfer.blockNumber else over[k - |events|].transfer.blockNumber
  }

  lemma PlacesOfKeys(events: seq<Event>, over: seq<Event>, k: nat)
    requires LogIndexesNotNegative(events) && CopiesOf(over, events) && NoOverflow(events, over)
    requires k < |events| + |over|
    ensures 0 <= IndexOf(events, over, k) < PRIMARY_KEY_MULTIPLIER
    ensures (MapSeq(events, WithKey) + Keyed(over, events))[k].primaryKey
         == Some(KeyOfPlace(BlockAt(events, over, k), IndexOf(events, over, k)))
  {
    assert !Overflows(events, over, BlockAt(events, over, k));
    if k < |events| {
      EventIndexBounds(events, events[k]);
    } else {
      OverIndexBounds(events, over, k - |events|);
    }
  }

  lemma PlacesDiffer(events: seq<Event>, over: seq<Event>, i: nat, j: nat)
    requires LogIndexesNotNegative(events) && CopiesOf(over, events) && DistinctPlaces(events)
    requires i < j < |events| + |over|
    ensures BlockAt(events, over, i) != BlockAt(events, over, j) || IndexOf(events, over, i) != IndexOf(events, over, j)
  {
    if BlockAt(events, over, i) == BlockAt(events, over, j) {
      if j < |events| {
        assert !At(events[i], events[j].transfer.blockNumber, events[j].transfer.logIndex);
      } else if i < |events| {
        EventIndexBounds(events, events[i]);
        OverIndexBounds(events, over, j - |events|);
      } else {
        CountBefore(over[..j - |events|], i - |events|);
        assert over[..j - |events|][..i - |events|] == over[..i - |events|];
        OverIndexBounds(events, over, i - |events|);
      }
    }
  }

  /** Events and copies all get different keys. */
  lemma KeysAreDistinct(events: seq<Event>, over: seq<Event>)
    requires LogIndexesNotNegative(events) && CopiesOf(over, events) && NoOverflow(events, over)
             && DistinctPlaces(events)
    ensures DistinctKeys(MapSeq(events, WithKey) + Keyed(over, events))
  {
    var all := MapSeq(events, WithKey) + Keyed(over, events);
    forall i, j | 0 <= i < j < |all| ensures all[i].primaryKey != all[j].primaryKey {
      PlacesOfKeys(events, over, i);
      PlacesOfKeys(events, over, j);
      PlacesDiffer(events, over, i, j);
      if all[i].primaryKey == all[j].primaryKey {
        PlaceOfKeyIsUnique(BlockAt(events, over, i), IndexOf(events, over, i),
                           BlockAt(events, over, j), IndexOf(events, over, j));
      }
    }
  }

  // ----- The exported batch -----

  lemma {:induction false} CountOfDistinct(s: seq<Event>, x: Event)
    requires DistinctKeys(s)
    ensures multiset(s)[x] <= 1
  {
    if s != [] {
      var init, last := s[..|s| - 1], s[|s| - 1];
      CountOfDistinct(init, x);
      assert s == init + [last];
      assert last !in init;
    }
  }

  /** Arranging events differently does not make their keys collide. */
  lemma DistinctKeysPermuted(s: seq<Event>, t: seq<Event>)
    requires DistinctKeys(s) && multiset(t) == multiset(s)
    ensures DistinctKeys(t)
  {
    forall i, j | 0 <= i < j < |t| ensures t[i].primaryKey != t[j].primaryKey {
      SameElements(t, s, t[i]);
      SameElements(t, s, t[j]);
      if t[i] == t[j] {
        TwiceCounted(t, i, j);
        CountOfDistinct(s, t[i]);
      }
    }
  }

  lemma MergedPermutes(events: seq<Event>, over: seq<Event>)
    ensures multiset(Merged(events, over)) == multiset(events + over)
  {
    if over == [] {
      assert events + over == events;
    } else {
      StableSortedPermutes(events + over, PrimaryKeyOrder);
    }
  }

  lemma ExtractedAreCopies(events: seq<Event>, overwrites: seq<ContractOverwrite>, rescale: Rescale)
    ensures CopiesOf(Extracted(events, overwrites, rescale), events)
  {
    var matching := Filter(events, IsOverwritten(overwrites));
    forall c | c in Extracted(events, overwrites, rescale) ensures MaxLog(events, c.transfer.blockNumber).Some? {
      var i :| 0 <= i < |matching| && c == ChangesTo(overwrites, rescale)(matching[i]);
      ChangesKeepBlock(overwrites, rescale, matching[i]);
      FilterMember(events, IsOverwritten(overwrites), matching[i]);
      MaxLogIsGreatest(events, c.transfer.blockNumber);
    }
  }

  lemma ChangesKeepBlock(overwrites: seq<ContractOverwrite>, rescale: Rescale, e: Event)
    ensures ChangesTo(overwrites, rescale)(e).transfer.blockNumber == e.transfer.blockNumber
  {
    if AllComplete(overwrites) {
      ChangedKeepsPlace(overwrites, rescale, e);
    }
  }

  lemma {:induction false} MapOfInsert(t: seq<Event>, x: Event, cmp: Comparator<Event>, f: Event -> Event)
    ensures multiset(MapSeq(Insert(t, x, cmp), f)) == multiset(MapSeq(t, f)) + multiset{f(x)}
  {
    if t == [] || cmp(t[|t| - 1], x) <= 0 {
      MapSnoc(t, x, f);
    } else {
      var init, last := t[..|t| - 1], t[|t| - 1];
      MapOfInsert(init, x, cmp, f);
      MapSnoc(Insert(init, x, cmp), last, f);
      MapSnoc(init, last, f);
      WithoutLast(t);
    }
  }

  lemma {:induction false} MapOfSorted(s: seq<Event>, cmp: Comparator<Event>, f: Event -> Event)
    ensures multiset(MapSeq(StableSorted(s, cmp), f)) == multiset(MapSeq(s, f))
  {
    if s != [] {
      var init, last := s[..|s| - 1], s[|s| - 1];
      MapOfSorted(init, cmp, f);
      MapOfInsert(StableSorted(init, cmp), last, cmp, f);
      MapSnoc(init, last, f);
      WithoutLast(s);
    }
  }

  /** The batch holds the keyed events and the keyed copies, each once. */
  lemma BatchIsComplete(events: seq<Event>, overwrites: seq<ContractOverwrite>, rescale: Rescale)
    ensures multiset(ExportBatch(events, overwrites, rescale))
         == multiset(MapSeq(events, WithKey) + Keyed(Extracted(events, overwrites, rescale), events))
  {
    MapOfSorted(events, TransactionOrder, WithKey);
    MergedPermutes(KeyedEvents(events), Keyed(Extracted(events, overwrites, rescale), events));
  }

  /** What a batch promises its readers: no two records share a key, and a key tells the block. */
  lemma BatchKeysIdentifyRecords(events: seq<Event>, overwrites: seq<ContractOverwrite>, rescale: Rescale)
    requires LogIndexesNotNegative(events) && DistinctPlaces(events)
    requires NoOverflow(events, Extracted(events, overwrites, rescale))
    ensures DistinctKeys(ExportBatch(events, overwrites, rescale))
    ensures KeysInBlocks(ExportBatch(events, overwrites, rescale))
  {
    var over := Extracted(events, overwrites, rescale);
    var all := MapSeq(events, WithKey) + Keyed(over, events);
    ExtractedAreCopies(events, overwrites, rescale);
    KeysAreDistinct(events, over);
    KeysFitIffNoOverflow(events, over);
    BatchIsComplete(events, overwrites, rescale);
    DistinctKeysPermuted(all, ExportBatch(events, overwrites, rescale));
    forall e | e in ExportBatch(events, overwrites, rescale) ensures KeyInBlock(e) {
      SameElements(ExportBatch(events, overwrites, rescale), all, e);
    }
  }

  // ----- A block's records do not depend on the batch -----

  function InBlock(block: int): Event -> bool {
    (e: Event) => e.transfer.blockNumber == block
  }

  function OfBlock(s: seq<Event>, block: int): seq<Event> {
    Filter(s, InBlock(block))
  }

  lemma {:induction false} FilterMapSeq<T>(s: seq<T>, f: T -> T, p: T -> bool)
    requires forall x :: x in s ==> p(f(x)) == p(x)
    ensures Filter(MapSeq(s, f), p) == MapSeq(Filter(s, p), f)
  {
    if s != [] {
      FilterMapSeq(s[1..], f, p);
      assert MapSeq(s, f)[1..] == MapSeq(s[1..], f);
    }
  }

  lemma {:induction false} FiltersCommute<T>(s: seq<T>, p: T -> bool, q: T -> bool)
    ensures Filter(Filter(s, p), q) == Filter(Filter(s, q), p)
  {
    if s != [] {
      var init, last := s[..|s| - 1], s[|s| - 1];
      FiltersCommute(init, p, q);
      WithoutLast(s);
      FilterSnoc(init, last, p);
      FilterSnoc(init, last, q);
      FilterSnoc(Filter(init, p), last, q);
      FilterSnoc(Filter(init, q), last, p);
    }
  }

  lemma {:induction false} MaxLogOfBlock(events: seq<Event>, block: int)
    ensures MaxLog(OfBlock(events, block), block) == MaxLog(events, block)
  {
    if events != [] {
      var init, last := events[..|events| - 1], events[|events| - 1];
      assert events == init + [last];
      MaxLogOfBlock(init, block);
      FilterSnoc(init, last, InBlock(block));
      assert (OfBlock(init, block) + [last])[..|OfBlock(init, block)|] == OfBlock(init, block);
    }
  }

  lemma {:induction false} CountAtOfBlock(over: seq<Event>, block: int)
    ensures CountAt(OfBlock(over, block), block) == CountAt(over, block)
  {
    if over != [] {
      var init, last := over[..|over| - 1], over[|over| - 1];
      assert over == init + [last];
      CountAtOfBlock(init, block);
      FilterSnoc(init, last, InBlock(block));
      assert (OfBlock(init, block) + [last])[..|OfBlock(init, block)|] == OfBlock(init, block);
    }
  }

  lemma KeyedSnoc(over: seq<Event>, x: Event, events: seq<Event>)
    ensures Keyed(over + [x], events) == Keyed(over, events)
              + [x.(primaryKey := Some(KeyOfPlace(x.transfer.blockNumber,
                                                  OverIndex(MaxLog(events, x.transfer.blockNumber),
                                                            CountAt(over, x.transfer.blockNumber)))))]
  {
    assert (over + [x])[..|over|] == over;
    forall j | 0 <= j < |over| ensures (over + [x])[..j] == over[..j] {
    }
  }

  lemma {:induction false} KeyedOfBlock(over: seq<Event>, events: seq<Event>, block: int)
    ensures OfBlock(Keyed(over, events), block) == Keyed(OfBlock(over, block), OfBlock(events, block))
  {
    if over != [] {
      var init, x := over[..|over| - 1], over[|over| - 1];
      assert over == init + [x];
      KeyedOfBlock(init, events, block);
      KeyedSnoc(init, x, events);
      FilterSnoc(init, x, InBlock(block));
      FilterSnoc(Keyed(init, events), Keyed(over, events)[|init|], InBlock(block));
      if x.transfer.blockNumber == block {
        KeyedSnoc(OfBlock(init, block), x, OfBlock(events, block));
        MaxLogOfBlock(events, block);
        CountAtOfBlock(init, block);
      }
    }
  }

  lemma ExtractedOfBlock(events: seq<Event>, overwrites: seq<ContractOverwrite>, rescale: Rescale, block: int)
    ensures OfBlock(Extracted(events, overwrites, rescale), block)
            == Extracted(OfBlock(events, block), overwrites, rescale)
  {
    forall e ensures InBlock(block)(ChangesTo(overwrites, rescale)(e)) == InBlock(block)(e) {
      ChangesKeepBlock(overwrites, rescale, e);
    }
    FilterMapSeq(Filter(events, IsOverwritten(overwrites)), ChangesTo(overwrites, rescale), InBlock(block));
    FiltersCommute(events, IsOverwritten(overwrites), InBlock(block));
  }

  lemma KeyedEventsOfBlock(events: seq<Event>, block: int)
    ensures OfBlock(KeyedEvents(events), block) == KeyedEvents(OfBlock(events, block))
  {
    FilterMapSeq(StableSorted(events, TransactionOrder), WithKey, InBlock(block));
    TransactionOrderOrders();
    FilterStableSorted(events, TransactionOrder, InBlock(block));
  }

  /** Keyed events are in order already: a later sort would not move them. */
  lemma KeyedEventsStay(events: seq<Event>)
    ensures StableSorted(KeyedEvents(events), PrimaryKeyOrder) == KeyedEvents(events)
  {
    TransactionOrderOrders();
    StableSortedSorts(events, TransactionOrder);
    SortedIsFixed(KeyedEvents(events), PrimaryKeyOrder);
  }

  /** The records of a block are those of exporting its events alone: no other block of the batch matters to them. */
  lemma RecordsOfBlock(events: seq<Event>, overwrites: seq<ContractOverwrite>, rescale: Rescale, block: int)
    ensures OfBlock(ExportBatch(events, overwrites, rescale), block)
         == ExportBatch(OfBlock(events, block), overwrites, rescale)
  {
    var keyed, over := KeyedEvents(events), Keyed(Extracted(events, overwrites, rescale), events);
    KeyedEventsOfBlock(events, block);
    ExtractedOfBlock(events, overwrites, rescale, block);
    KeyedOfBlock(Extracted(events, overwrites, rescale), events, block);
    var keyed', over' := OfBlock(keyed, block), OfBlock(over, block);
    if over != [] {
      PrimaryKeyOrderOrders();
      FilterStableSorted(keyed + over, PrimaryKeyOrder, InBlock(block));
      FilterAppend(keyed, over, InBlock(block));
      if over' == [] {
        assert keyed' + over' == keyed';
        KeyedEventsStay(OfBlock(events, block));
      }
    }
  }

  /** A block exported again after a crash, whatever the batch, gets the same records with the same keys. */
  lemma ReexportRepeatsRecords(first: seq<Event>, second: seq<Event>, overwrites: seq<ContractOverwrite>,
                               rescale: Rescale, block: int)
    requires OfBlock(first, block) == OfBlock(second, block)
    ensures OfBlock(ExportBatch(first, overwrites, rescale), block)
         == OfBlock(ExportBatch(second, overwrites, rescale), block)
  {
    RecordsOfBlock(first, overwrites, rescale, block);
    RecordsOfBlock(second, overwrites, rescale, block);
  }
}

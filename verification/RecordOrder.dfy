/** The order in which the ERC20 worker exports its records, told from their fields: erc20/lib/extend_events_key.ts. */
module RecordOrder {
  import opened Common
  import opened Chunks
  import opened FetchEvents
  import opened StableSorting
  import opened ContractOverwrites
  import opened EventKeys
  import opened EventBatches
  import opened MulticallBlacklists
  import opened Erc20Workers
  import A = AddBalances

  /** By block, then by transaction in the block, then by log, then by key. */
  predicate Before(a: Event, b: Event) {
    var x, y := a.transfer, b.transfer;
    || x.blockNumber < y.blockNumber
    || (x.blockNumber == y.blockNumber && x.transactionIndex < y.transactionIndex)
    || (x.blockNumber == y.blockNumber && x.transactionIndex == y.transactionIndex && x.logIndex < y.logIndex)
    || (x.blockNumber == y.blockNumber && x.transactionIndex == y.transactionIndex && x.logIndex == y.logIndex
        && a.primaryKey.Some? && b.primaryKey.Some? && a.primaryKey.value < b.primaryKey.value)
  }

  /** The same place, and the same key. */
  predicate Level(a: Event, b: Event) {
    && a.transfer.blockNumber == b.transfer.blockNumber && a.transfer.transactionIndex == b.transfer.transactionIndex
    && a.transfer.logIndex == b.transfer.logIndex && a.primaryKey == b.primaryKey
  }

  predicate InOrder(records: seq<Event>) {
    forall i, j :: 0 <= i < j < |records| ==> Before(records[i], records[j]) || Level(records[i], records[j])
  }

  predicate StrictlyInOrder(records: seq<Event>) {
    forall i, j :: 0 <= i < j < |records| ==> Before(records[i], records[j])
  }

  predicate AllKeyed(records: seq<Event>) {
    forall i :: 0 <= i < |records| ==> records[i].primaryKey.Some?
  }

  lemma SortedIsInOrder(records: seq<Event>)
    requires Sorted(records, PrimaryKeyOrder) && AllKeyed(records)
    ensures InOrder(records)
  {
    forall i, j | 0 <= i < j < |records| ensures Before(records[i], records[j]) || Level(records[i], records[j]) {
      assert PrimaryKeyOrder(records[i], records[j]) <= 0;
    }
  }

  lemma KeyedAreInOrder(events: seq<Event>)
    ensures AllKeyed(KeyedEvents(events)) && InOrder(KeyedEvents(events))
  {
    var sorted := StableSorted(events, TransactionOrder);
    TransactionOrderOrders();
    StableSortedSorts(events, TransactionOrder);
    forall i, j | 0 <= i < j < |sorted|
      ensures Before(KeyedEvents(events)[i], KeyedEvents(events)[j])
              || Level(KeyedEvents(events)[i], KeyedEvents(events)[j])
    {
      assert TransactionOrder(sorted[i], sorted[j]) <= 0;
    }
  }

  lemma PermutedAreKeyed(a: seq<Event>, b: seq<Event>)
    requires AllKeyed(a) && multiset(b) == multiset(a)
    ensures AllKeyed(b)
  {
    forall i | 0 <= i < |b| ensures b[i].primaryKey.Some? {
      SameElements(b, a, b[i]);
    }
  }

  lemma MergedAreInOrder(events: seq<Event>, over: seq<Event>)
    requires AllKeyed(events) && InOrder(events) && AllKeyed(over)
    ensures AllKeyed(Merged(events, over)) && InOrder(Merged(events, over))
  {
    if over != [] {
      PrimaryKeyOrderOrders();
      StableSortedSorts(events + over, PrimaryKeyOrder);
      StableSortedPermutes(events + over, PrimaryKeyOrder);
      PermutedAreKeyed(events + over, Merged(events, over));
      SortedIsInOrder(Merged(events, over));
    }
  }

  /** A batch has all its keys and is in order. */
  lemma BatchIsInOrder(events: seq<Event>, overwrites: seq<ContractOverwrite>, rescale: Rescale)
    ensures AllKeyed(ExportBatch(events, overwrites, rescale)) && InOrder(ExportBatch(events, overwrites, rescale))
  {
    KeyedAreInOrder(events);
    MergedAreInOrder(KeyedEvents(events), Keyed(Extracted(events, overwrites, rescale), events));
  }

  /** When keys are distinct, no two records of a batch are level. */
  lemma BatchIsStrictlyInOrder(events: seq<Event>, overwrites: seq<ContractOverwrite>, rescale: Rescale)
    requires LogIndexesNotNegative(events) && DistinctPlaces(events)
    requires NoOverflow(events, Extracted(events, overwrites, rescale))
    ensures StrictlyInOrder(ExportBatch(events, overwrites, rescale))
  {
    var batch := ExportBatch(events, overwrites, rescale);
    BatchIsInOrder(events, overwrites, rescale);
    BatchKeysIdentifyRecords(events, overwrites, rescale);
    forall i, j | 0 <= i < j < |batch| ensures Before(batch[i], batch[j]) {
      assert batch[i].primaryKey != batch[j].primaryKey;
    }
  }

  /** The records of a work call are in order, in every mode and with or without balances. */
  lemma RecordsAreInOrder(s: Settings, node: Node, interval: Chunk, failures: Option<Failures>, moves: seq<A.Move>,
                          records: seq<Event>, keyBefore: int, keyAfter: int)
    requires ValidSettings(s) && Scheduled(s, node, Some(interval), failures, moves)
    requires Exports(s, node, interval, failures, moves, records, keyBefore, keyAfter)
    ensures AllKeyed(records) && InOrder(records)
  {
    BatchIsInOrder(EventsOf(s, Lists(s, node, interval.0, interval.1).value,
                            FillsFor(s, node, interval, failures, moves).value), Appended(s), s.rescale);
  }
}

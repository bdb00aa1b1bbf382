/** The export protocol carrying the ERC20 worker's records: what no gap and few duplicates say about them. */
module Erc20Protocol {
  import opened Common
  import opened Chunks
  import opened FetchEvents
  import opened ChunkedFetch
  import opened StableSorting
  import opened ContractOverwrites
  import opened EventKeys
  import opened EventBatches
  import opened MulticallBlacklists
  import opened Balancing
  import opened Erc20Workers
  import A = AddBalances
  import P = ExportProtocol

  /** The records of a block exported alone. */
  function BlockRecords(s: Settings, node: Node, block: int): seq<Event> {
    ExportBatch(BlockEvents(s, node, block), Appended(s), s.rescale)
  }

  function RecordsOfBlocks(s: Settings, node: Node, lo: int, hi: int): seq<Event>
    decreases hi - lo
  {
    if lo > hi then [] else BlockRecords(s, node, lo) + RecordsOfBlocks(s, node, lo + 1, hi)
  }

  // ----- A range exports the records of its blocks, one block after the other -----

  predicate ByBlock(r: seq<Event>) {
    forall i, j :: 0 <= i < j < |r| ==> r[i].transfer.blockNumber <= r[j].transfer.blockNumber
  }

  function Later(block: int): Event -> bool {
    (e: Event) => e.transfer.blockNumber > block
  }

  function Cut(r: seq<Event>, lo: int, hi: int): seq<Event>
    decreases hi - lo
  {
    if lo > hi then [] else OfBlock(r, lo) + Cut(r, lo + 1, hi)
  }

  lemma {:induction false} FirstBlock(r: seq<Event>, block: int)
    requires ByBlock(r) && forall e :: e in r ==> e.transfer.blockNumber >= block
    ensures r == OfBlock(r, block) + Filter(r, Later(block))
  {
    if r != [] {
      assert r == [r[0]] + r[1..];
      if r[0].transfer.blockNumber == block {
        FirstBlock(r[1..], block);
      } else {
        forall e | e in r ensures e.transfer.blockNumber > block {
        }
        FilterNone(r, InBlock(block));
        FilterAll(r, Later(block));
      }
    }
  }

  lemma {:induction false} LaterByBlock(r: seq<Event>, block: int)
    requires ByBlock(r)
    ensures ByBlock(Filter(r, Later(block)))
  {
    if r != [] {
      LaterByBlock(r[1..], block);
      forall e | e in Filter(r[1..], Later(block)) ensures e.transfer.blockNumber >= r[0].transfer.blockNumber {
        FilterMember(r[1..], Later(block), e);
      }
    }
  }

  lemma {:induction false} CutLater(r: seq<Event>, block: int, lo: int, hi: int)
    requires block < lo
    ensures Cut(Filter(r, Later(block)), lo, hi) == Cut(r, lo, hi)
    decreases hi - lo
  {
    if lo <= hi {
      FilterOfFilter(r, Later(block), InBlock(lo));
      CutLater(r, block, lo + 1, hi);
    }
  }

  lemma {:induction false} CutIsWhole(r: seq<Event>, lo: int, hi: int)
    requires ByBlock(r) && forall e :: e in r ==> lo <= e.transfer.blockNumber <= hi
    ensures Cut(r, lo, hi) == r
    decreases hi - lo
  {
    if lo <= hi {
      var later := Filter(r, Later(lo));
      FirstBlock(r, lo);
      LaterByBlock(r, lo);
      forall e | e in later ensures lo + 1 <= e.transfer.blockNumber <= hi {
        FilterMember(r, Later(lo), e);
      }
      CutIsWhole(later, lo + 1, hi);
      CutLater(r, lo, lo + 1, hi);
    }
    HasBlocks(r, lo, hi);
  }

  lemma HasBlocks(r: seq<Event>, lo: int, hi: int)
    requires forall e :: e in r ==> lo <= e.transfer.blockNumber <= hi
    ensures r != [] ==> lo <= hi
  {
    if r != [] {
      assert r[0] in r;
    }
  }

  lemma BatchIsByBlock(events: seq<Event>, overwrites: seq<ContractOverwrite>, rescale: Rescale)
    ensures ByBlock(ExportBatch(events, overwrites, rescale))
  {
    var keyed := KeyedEvents(events);
    var over := Keyed(Extracted(events, overwrites, rescale), events);
    if over == [] {
      TransactionOrderOrders();
      StableSortedSorts(events, TransactionOrder);
    } else {
      PrimaryKeyOrderOrders();
      StableSortedSorts(keyed + over, PrimaryKeyOrder);
    }
  }

  lemma EmptyBatch(overwrites: seq<ContractOverwrite>, rescale: Rescale)
    ensures ExportBatch([], overwrites, rescale) == []
  {
    assert Filter([], IsOverwritten(overwrites)) == [];
  }

  lemma RangeRecordsWithin(s: Settings, node: Node, lo: int, hi: int, e: Event)
    requires ValidSettings(s) && OneBlockPerTransaction(node) && LogsOfTheirBlock(node)
             && EventsFor(s, node, lo, hi).Ok?
    requires e in RangeRecords(s, node, lo, hi)
    ensures lo <= e.transfer.blockNumber <= hi
  {
    var block := e.transfer.blockNumber;
    FilterMember(RangeRecords(s, node, lo, hi), InBlock(block), e);
    BlockExportIsStable(s, node, lo, hi, block);
    EmptyBatch(Appended(s), s.rescale);
  }

  lemma {:induction false} CutIntoBlocks(s: Settings, node: Node, lo: int, from: int, hi: int)
    requires ValidSettings(s) && OneBlockPerTransaction(node) && LogsOfTheirBlock(node)
             && EventsFor(s, node, lo, hi).Ok?
    requires lo <= from
    ensures Cut(RangeRecords(s, node, lo, hi), from, hi) == RecordsOfBlocks(s, node, from, hi)
    decreases hi - from
  {
    if from <= hi {
      BlockExportIsStable(s, node, lo, hi, from);
      CutIntoBlocks(s, node, lo, from + 1, hi);
    }
  }

  /** An interval's batch is its blocks' batches, one after the other. */
  lemma RangeIsItsBlocks(s: Settings, node: Node, lo: int, hi: int)
    requires ValidSettings(s) && OneBlockPerTransaction(node) && LogsOfTheirBlock(node)
             && EventsFor(s, node, lo, hi).Ok?
    ensures RangeRecords(s, node, lo, hi) == RecordsOfBlocks(s, node, lo, hi)
  {
    BatchIsByBlock(EventsFor(s, node, lo, hi).value, Appended(s), s.rescale);
    forall e | e in RangeRecords(s, node, lo, hi) ensures lo <= e.transfer.blockNumber <= hi {
      RangeRecordsWithin(s, node, lo, hi, e);
    }
    CutIsWhole(RangeRecords(s, node, lo, hi), lo, hi);
    CutIntoBlocks(s, node, lo, lo, hi);
  }

  // ----- The protocol's events stand for the records -----

  /** One event for each record of the block, numbered. */
  function Numbered(s: Settings, node: Node): int -> seq<P.Event> {
    (block: int) => seq(|BlockRecords(s, node, block)|, i => P.Event(block, i))
  }

  function ConfigOf(s: Settings, node: Node, startBlock: int): P.Config {
    P.Config(startBlock, s.blockInterval, s.confirmations, Numbered(s, node))
  }

  /** The record an event stands for. */
  function RecordOf(s: Settings, node: Node): P.Event -> Option<Event> {
    (e: P.Event) =>
      if 0 <= e.payload < |BlockRecords(s, node, e.block)| then Some(BlockRecords(s, node, e.block)[e.payload])
      else None
  }

  function Present(records: seq<Event>): (r: seq<Option<Event>>)
    ensures |r| == |records|
  {
    seq(|records|, i requires 0 <= i < |records| => Some(records[i]))
  }

  lemma NumberedAreRecords(s: Settings, node: Node, block: int)
    ensures MapSeq(Numbered(s, node)(block), RecordOf(s, node)) == Present(BlockRecords(s, node, block))
  {
  }

  lemma MapAppend<A, B>(a: seq<A>, b: seq<A>, f: A -> B)
    ensures MapSeq(a + b, f) == MapSeq(a, f) + MapSeq(b, f)
  {
  }

  lemma PresentAppend(a: seq<Event>, b: seq<Event>)
    ensures Present(a + b) == Present(a) + Present(b)
  {
  }

  lemma {:induction false} EventsAreRecords(s: Settings, node: Node, startBlock: int, lo: int, hi: int)
    ensures MapSeq(P.EventsOf(ConfigOf(s, node, startBlock), lo, hi), RecordOf(s, node))
         == Present(RecordsOfBlocks(s, node, lo, hi))
    decreases hi - lo
  {
    if lo <= hi {
      EventsAreRecords(s, node, startBlock, lo + 1, hi);
      NumberedAreRecords(s, node, lo);
      MapAppend(Numbered(s, node)(lo), P.EventsOf(ConfigOf(s, node, startBlock), lo + 1, hi), RecordOf(s, node));
      PresentAppend(BlockRecords(s, node, lo), RecordsOfBlocks(s, node, lo + 1, hi));
    }
  }

  /** What the worker returns for an interval is what the protocol exports for it. */
  lemma WorkerExportsTheInterval(s: Settings, node: Node, startBlock: int, lo: int, hi: int)
    requires ValidSettings(s) && OneBlockPerTransaction(node) && LogsOfTheirBlock(node)
             && EventsFor(s, node, lo, hi).Ok?
    ensures Present(RangeRecords(s, node, lo, hi))
         == MapSeq(P.EventsOf(ConfigOf(s, node, startBlock), lo, hi), RecordOf(s, node))
  {
    RangeIsItsBlocks(s, node, lo, hi);
    EventsAreRecords(s, node, startBlock, lo, hi);
  }

  lemma ConfigIsValid(s: Settings, node: Node, startBlock: int)
    requires s.blockInterval >= 1
    ensures P.ValidConfig(ConfigOf(s, node, startBlock))
  {
  }

  /**
   * Over every run of the exporter with this worker: each record of the blocks past the start up to the saved
   * position is in Kafka, and whatever is in Kafka is the record of a block that a reported head confirmed.
   */
  lemma NoRecordIsMissing(s: Settings, node: Node, startBlock: int, steps: seq<P.Step>)
    requires s.blockInterval >= 1 && P.Run(ConfigOf(s, node, startBlock), P.Init(), steps).Some?
    ensures var c := ConfigOf(s, node, startBlock);
            var st := P.Run(c, P.Init(), steps).value;
            && (st.saved.Some? ==> forall block, x ::
                  startBlock < block <= st.saved.value && x in BlockRecords(s, node, block) ==>
                    InLog(s, node, st.log, block, x))
            && forall e :: e in st.log ==> RecordOf(s, node)(e).Some? && P.Confirmed(c, st.heads, e.block)
  {
    var c := ConfigOf(s, node, startBlock);
    var st := P.Run(c, P.Init(), steps).value;
    ConfigIsValid(s, node, startBlock);
    P.NoGapAndNothingUnconfirmed(c, steps);
    if st.saved.Some? {
      forall block, x | startBlock < block <= st.saved.value && x in BlockRecords(s, node, block)
        ensures InLog(s, node, st.log, block, x)
      {
        RecordIsInLog(s, node, startBlock, st.log, block, x);
      }
    }
    forall e | e in st.log ensures RecordOf(s, node)(e).Some? {
      ChainHoldsRecords(s, node, startBlock, e);
    }
  }

  ghost predicate InLog(s: Settings, node: Node, log: seq<P.Event>, block: int, x: Event) {
    exists e :: e in log && e.block == block && RecordOf(s, node)(e) == Some(x)
  }

  lemma RecordIsInLog(s: Settings, node: Node, startBlock: int, log: seq<P.Event>, block: int, x: Event)
    requires x in BlockRecords(s, node, block)
    requires forall e :: e in ConfigOf(s, node, startBlock).chain(block) ==> e in log
    ensures InLog(s, node, log, block, x)
  {
    var i :| 0 <= i < |BlockRecords(s, node, block)| && BlockRecords(s, node, block)[i] == x;
    assert ConfigOf(s, node, startBlock).chain(block)[i] == P.Event(block, i);
    assert P.Event(block, i) in log;
  }

  lemma ChainHoldsRecords(s: Settings, node: Node, startBlock: int, e: P.Event)
    requires e in ConfigOf(s, node, startBlock).chain(e.block)
    ensures RecordOf(s, node)(e).Some?
  {
  }

  lemma NothingFetched(s: Settings, node: Node, interval: Chunk)
    requires ValidSettings(s) && interval.0 > interval.1
    ensures Lists(s, node, interval.0, interval.1) == Ok(([], []))
  {
  }

  lemma NothingMade(s: Settings, fills: (Fill, Fill))
    ensures EventsOf(s, ([], []), fills) == []
  {
  }

  /**
   * An interval that ends before it starts fetches nothing and does not fail: the worker returns no records,
   * and its position goes to the end of the interval, which is back.
   */
  lemma InvertedIntervalIsEmpty(s: Settings, node: Node, interval: Chunk, failures: Option<Failures>,
                                moves: seq<A.Move>,
                                records: seq<Event>, key: int, after: int)
    requires ValidSettings(s) && interval.0 > interval.1 && Scheduled(s, node, Some(interval), failures, moves)
    ensures !CallFails(s, node, Some(interval), failures, moves)
    ensures Exports(s, node, interval, failures, moves, records, key, after) <==> records == [] && after == key
  {
    NothingFetched(s, node, interval);
    EmptyBatch(Appended(s), s.rescale);
    if AsksForBalances(s, interval.0) {
      NothingToBalance(BalancerOf(s), failures, moves);
    }
    NothingMade(s, FillsFor(s, node, interval, failures, moves).value);
  }
}

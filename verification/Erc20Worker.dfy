/** The ERC20 worker: erc20/erc20_worker.ts. */
module Erc20Workers {
  import opened Common
  import opened Chunks
  import opened FetchEvents
  import opened CustomDistribution
  import opened ChunkedFetch
  import opened StableSorting
  import opened ContractOverwrites
  import opened EventKeys
  import opened EventBatches
  import opened BlocksList
  import opened MulticallBlacklists
  import opened Balancing
  import A = AddBalances
  import P = ExportProtocol

  datatype Mode = Vanilla | ExtractExactOverwrite | ExtractAllAppend

  datatype Settings = Settings(mode: Mode, overwrites: seq<ContractOverwrite>, contractsUnmodified: seq<string>,
                               custom: Custom, rescale: Rescale, concurrency: int, blockInterval: int,
                               confirmations: int, exportBlocksList: bool, extendTransfersWithBalances: bool,
                               multicallDeployBlock: int, checksum: string -> bool, multicallBatchSize: int,
                               failureThreshold: int)

  predicate ValidSettings(s: Settings) {
    s.concurrency >= 1 && s.multicallBatchSize >= 1 && AllComplete(s.overwrites)
  }

  function BalancerOf(s: Settings): Balancer {
    Balancer(s.checksum, s.multicallBatchSize, s.concurrency, s.failureThreshold)
  }

  function Unkeyed(t: Transfer): Event {
    Event(t, None, NO_SIDES)
  }

  function AllOldContracts(overwrites: seq<ContractOverwrite>): seq<string> {
    Flatten(MapSeq(overwrites, (o: ContractOverwrite) => o.oldAddresses))
  }

  /** What is fetched for a range: the transfers to change, and those to leave as they are. */
  function Lists(s: Settings, node: Node, lo: int, hi: int): Result<(seq<Transfer>, seq<Transfer>)>
    requires ValidSettings(s)
  {
    if s.mode.ExtractExactOverwrite? then
      var olds := FetchPastEvents(node, Some(AllOldContracts(s.overwrites)), s.custom, lo, hi, s.concurrency);
      var others := FetchPastEvents(node, Some(s.contractsUnmodified), s.custom, lo, hi, s.concurrency);
      if olds.Err? then Err(olds.error) else if others.Err? then Err(others.error) else Ok((olds.value, others.value))
    else
      match FetchPastEvents(node, None, s.custom, lo, hi, s.concurrency)
      case Err(error) => Err(error)
      case Ok(events) => Ok(([], events))
  }

  function WithSides(fill: Fill): Transfer -> Event {
    (t: Transfer) => Event(t, None, fill(t))
  }

  /** The events made of both lists. */
  function EventsOf(s: Settings, lists: (seq<Transfer>, seq<Transfer>), fills: (Fill, Fill)): seq<Event> {
    MapSeq(MapSeq(lists.0, WithSides(fills.0)), ChangesTo(s.overwrites, s.rescale))
    + MapSeq(lists.1, WithSides(fills.1))
  }

  /** The events to export for a range, before they get balances and keys. */
  function EventsFor(s: Settings, node: Node, lo: int, hi: int): Result<seq<Event>>
    requires ValidSettings(s)
  {
    if s.mode.ExtractExactOverwrite? then
      var olds := FetchPastEvents(node, Some(AllOldContracts(s.overwrites)), s.custom, lo, hi, s.concurrency);
      var others := FetchPastEvents(node, Some(s.contractsUnmodified), s.custom, lo, hi, s.concurrency);
      if olds.Err? then Err(olds.error)
      else if others.Err? then Err(others.error)
      else Ok(MapSeq(MapSeq(olds.value, Unkeyed), ChangesTo(s.overwrites, s.rescale)) + MapSeq(others.value, Unkeyed))
    else
      match FetchPastEvents(node, None, s.custom, lo, hi, s.concurrency)
      case Err(error) => Err(error)
      case Ok(events) => Ok(MapSeq(events, Unkeyed))
  }

  /** The overwrites whose copies are added to the events. */
  function Appended(s: Settings): seq<ContractOverwrite> {
    if s.mode.ExtractAllAppend? then s.overwrites else []
  }

  /** The greatest key, or -1. */
  function MaxKey(events: seq<Event>): int {
    if events == [] then -1 else Max(MaxKey(events[..|events| - 1]), KeyOf(events[|events| - 1]))
  }

  class ERC20Worker {
    const settings: Settings
    var blocksList: seq<Chunk>
    var lastConfirmedBlock: int
    var lastExportedBlock: int
    var lastPrimaryKey: int
    /** What the blacklist has counted, if there is one. */
    var failures: Option<Failures>

    constructor (settings: Settings, blocksList: seq<Chunk>, head: int, lastExportedBlock: int, lastPrimaryKey: int)
      ensures this.settings == settings && this.blocksList == blocksList
      ensures lastConfirmedBlock == head - settings.confirmations
      ensures this.lastExportedBlock == lastExportedBlock && this.lastPrimaryKey == lastPrimaryKey
      ensures failures == if settings.failureThreshold > 0 then Some(map[]) else None
    {
      this.settings, this.blocksList := settings, blocksList;
      this.lastConfirmedBlock := head - settings.confirmations;
      this.lastExportedBlock, this.lastPrimaryKey := lastExportedBlock, lastPrimaryKey;
      this.failures := if settings.failureThreshold > 0 then Some(map[]) else None;
    }

    /** The next interval to export, if there is one. */
    method GetBlocksListInterval() returns (r: Option<Chunk>)
      modifies this`blocksList
      ensures blocksList == Remaining(old(blocksList), lastExportedBlock)
      ensures r == if blocksList == [] then None else Some(blocksList[0])
    {
      if lastExportedBlock == -1 && |blocksList| > 0 {
        return Some(blocksList[0]);
      }
      while |blocksList| > 0 && lastExportedBlock >= blocksList[0].1
        invariant Shifted(blocksList, lastExportedBlock) == Shifted(old(blocksList), lastExportedBlock)
        decreases |blocksList|
      {
        blocksList := blocksList[1..];
      }
      if |blocksList| == 0 {
        return None;
      }
      return Some(blocksList[0]);
    }

    /** Export until the list is exhausted, the position going to the end of each interval. */
    method ExportList() returns (visited: seq<Chunk>)
      requires Listed(blocksList)
      modifies this
      ensures visited == Remaining(old(blocksList), old(lastExportedBlock))
      ensures blocksList == []
    {
      visited := [];
      RemainingListed(blocksList, lastExportedBlock);
      var interval := GetBlocksListInterval();
      while interval.Some?
        invariant visited + blocksList == Remaining(old(blocksList), old(lastExportedBlock))
        invariant interval == if blocksList == [] then None else Some(blocksList[0])
        invariant Listed(blocksList)
        decreases |blocksList|
      {
        VisitStep(visited, blocksList);
        lastExportedBlock := interval.value.1;
        visited := visited + [interval.value];
        interval := GetBlocksListInterval();
      }
    }

    method AnalyzeWorkerContext(head: Option<int>) returns (r: Result<P.WorkerContext>)
      modifies this`lastConfirmedBlock
      ensures r.Err? <==> old(lastExportedBlock >= lastConfirmedBlock) && head.None?
      ensures r.Err? ==> lastConfirmedBlock == old(lastConfirmedBlock)
      ensures r.Ok? ==>
                P.AnalyzeContext(lastExportedBlock, old(lastConfirmedBlock), NewConfirmed(head))
                    == (r.value, lastConfirmedBlock)
    {
      if lastExportedBlock < lastConfirmedBlock {
        return Ok(P.WorkNoSleep);
      }
      if head.None? {
        return Err("node");
      }
      if head.value - settings.confirmations > lastConfirmedBlock {
        lastConfirmedBlock := head.value - settings.confirmations;
        return Ok(P.WorkSleep);
      }
      return Ok(P.NoWorkSleep);
    }

    function NewConfirmed(head: Option<int>): int {
      (if head.Some? then head.value else 0) - settings.confirmations
    }

    method NextInterval() returns (interval: Option<Chunk>)
      modifies this`blocksList
      ensures interval == IntervalFrom(settings, old(blocksList), lastExportedBlock, lastConfirmedBlock)
      ensures blocksList ==
              if settings.exportBlocksList then Remaining(old(blocksList), lastExportedBlock) else old(blocksList)
    {
      if settings.exportBlocksList {
        interval := GetBlocksListInterval();
      } else {
        var next := P.NextIntervalCalculator(lastExportedBlock, settings.blockInterval, lastConfirmedBlock);
        interval := Some((next.fromBlock, next.toBlock));
      }
    }

    /**
     * Export the next interval: its events with their balances, where they are asked for, and their keys; the position
     * moves to its end. `moves` are the requests for balances and the answers, in the order in which they come.
     */
    method Work(head: Option<int>, node: Node, moves: seq<A.Move>) returns (r: Result<seq<Event>>)
      requires ValidSettings(settings) && Scheduled(settings, node, Next(head), failures, moves)
      modifies this
      ensures r.Err? <==>
              || (old(lastExportedBlock >= lastConfirmedBlock) && head.None?)
              || CallFails(settings, node, old(Next(head)), old(failures), moves)
      ensures (lastConfirmedBlock, blocksList) ==
              if old(lastExportedBlock >= lastConfirmedBlock) && head.None? then old((lastConfirmedBlock, blocksList))
              else Analyzed(settings, old(blocksList), old(lastExportedBlock), old(lastConfirmedBlock),
                            NewConfirmed(head))
      ensures r.Err? ==> lastExportedBlock == old(lastExportedBlock) && lastPrimaryKey == old(lastPrimaryKey)
      ensures r.Ok? ==>
                if old(Next(head)).None?
                then r.value == []
                     && lastExportedBlock == old(lastExportedBlock) && lastPrimaryKey == old(lastPrimaryKey)
                else Exports(settings, node, old(Next(head)).value, old(failures), moves, r.value,
                             old(lastPrimaryKey), lastPrimaryKey)
                     && lastExportedBlock == old(Next(head)).value.1
      ensures failures ==
              if old(lastExportedBlock >= lastConfirmedBlock) && head.None? then old(failures)
              else FailuresAfter(settings, node, old(Next(head)), old(failures), moves)
    {
      var context := AnalyzeWorkerContext(head);
      if context.Err? {
        return Err(context.error);
      }
      if context.value.NoWorkSleep? {
        return Ok([]);
      }
      var interval := NextInterval();
      if interval.None? {
        return Ok([]);
      }
      r := Export(interval.value, node, moves);
    }

    /** Fetch the interval, add balances, copies and keys, and move the position to its end. */
    method Export(interval: Chunk, node: Node, moves: seq<A.Move>) returns (r: Result<seq<Event>>)
      requires ValidSettings(settings) && Scheduled(settings, node, Some(interval), failures, moves)
      modifies this`lastExportedBlock, this`lastPrimaryKey, this`failures
      ensures r.Err? <==> CallFails(settings, node, Some(interval), old(failures), moves)
      ensures r.Err? ==> lastExportedBlock == old(lastExportedBlock) && lastPrimaryKey == old(lastPrimaryKey)
      ensures r.Ok? ==> lastExportedBlock == interval.1
      ensures r.Ok? ==>
                Exports(settings, node, interval, old(failures), moves, r.value, old(lastPrimaryKey), lastPrimaryKey)
      ensures failures == FailuresAfter(settings, node, Some(interval), old(failures), moves)
    {
      var lists := Lists(settings, node, interval.0, interval.1);
      if lists.Err? {
        return Err(lists.error);
      }
      var fills := FillsFor(settings, node, interval, failures, moves);
      failures := FailuresAfter(settings, node, Some(interval), failures, moves);
      if fills.Err? {
        return Err(fills.error);
      }
      var events := EventsOf(settings, lists.value, fills.value);
      var records, maxKey := Records(events);
      if |events| > 0 {
        lastPrimaryKey := maxKey;
      }
      lastExportedBlock := interval.1;
      return Ok(records);
    }

    /** The interval that a call exports. */
    function Next(head: Option<int>): Option<Chunk>
      reads this
    {
      Due(settings, blocksList, lastExportedBlock, lastConfirmedBlock, NewConfirmed(head))
    }

    /** Add the overwritten copies and the keys. */
    method Records(events: seq<Event>) returns (result: seq<Event>, maxKey: int)
      requires ValidSettings(settings)
      ensures result == ExportBatch(events, Appended(settings), settings.rescale)
      ensures maxKey == MaxKey(KeyedEvents(events))
    {
      var overwritten := ExtractChangedContractAddresses(events, Appended(settings), settings.rescale);
      result, maxKey := KeyAndMerge(events, overwritten);
    }
  }

  /** The confirmed block and the list after a call that the node gave a head if it was asked. */
  function Analyzed(s: Settings, list: seq<Chunk>, last: int, confirmed: int, newConfirmed: int): (int, seq<Chunk>) {
    var (context, now) := P.AnalyzeContext(last, confirmed, newConfirmed);
    (now, if context.NoWorkSleep? || !s.exportBlocksList then list else Remaining(list, last))
  }

  /** The interval a call exports, if any. */
  function Due(s: Settings, list: seq<Chunk>, last: int, confirmed: int, newConfirmed: int): Option<Chunk> {
    var (context, conf) := P.AnalyzeContext(last, confirmed, newConfirmed);
    if context.NoWorkSleep? then None else IntervalFrom(s, list, last, conf)
  }

  /** Whether the transfers of an interval that starts here get balances. */
  predicate AsksForBalances(s: Settings, lo: int) {
    s.extendTransfersWithBalances && lo > s.multicallDeployBlock
  }

  /** The schedule of balance requests fits the interval to export, if it asks for balances. */
  predicate Scheduled(s: Settings, node: Node, due: Option<Chunk>, failures: Option<Failures>, moves: seq<A.Move>)
    requires ValidSettings(s)
  {
    due.Some? && AsksForBalances(s, due.value.0) && Lists(s, node, due.value.0, due.value.1).Ok? ==>
      var lists := Lists(s, node, due.value.0, due.value.1).value;
      Ends(BalancerOf(s), lists.0, lists.1, failures, moves)
  }

  /** The balances of an interval's transfers, none where they are not asked for. */
  function FillsFor(s: Settings, node: Node, interval: Chunk, failures: Option<Failures>, moves: seq<A.Move>)
    : Result<(Fill, Fill)>
    requires ValidSettings(s) && Scheduled(s, node, Some(interval), failures, moves)
    requires Lists(s, node, interval.0, interval.1).Ok?
  {
    var lists := Lists(s, node, interval.0, interval.1).value;
    if AsksForBalances(s, interval.0) then Fills(BalancerOf(s), lists.0, lists.1, failures, moves)
        else Ok((Blank, Blank))
  }

  /** The node fails, or the balances cannot be added. */
  predicate CallFails(s: Settings, node: Node, due: Option<Chunk>, failures: Option<Failures>, moves: seq<A.Move>)
    requires ValidSettings(s) && Scheduled(s, node, due, failures, moves)
  {
    due.Some? && (Lists(s, node, due.value.0, due.value.1).Err? || FillsFor(s, node, due.value, failures, moves).Err?)
  }

  /** What the blacklist has counted after a call. */
  function FailuresAfter(s: Settings, node: Node, due: Option<Chunk>, failures: Option<Failures>, moves: seq<A.Move>)
    : Option<Failures>
    requires ValidSettings(s) && Scheduled(s, node, due, failures, moves)
  {
    if due.Some? && AsksForBalances(s, due.value.0) && Lists(s, node, due.value.0, due.value.1).Ok? then
      var lists := Lists(s, node, due.value.0, due.value.1).value;
      Final(BalancerOf(s), lists.0, lists.1, failures, moves).value.failures
    else failures
  }

  function IntervalFrom(s: Settings, list: seq<Chunk>, last: int, confirmed: int): Option<Chunk> {
    if !s.exportBlocksList then Some((last + 1, Min(last + s.blockInterval, confirmed)))
    else if Remaining(list, last) == [] then None
    else Some(Remaining(list, last)[0])
  }

  /** The records of an interval, and the key the worker remembers. */
  ghost predicate Exports(s: Settings, node: Node, interval: Chunk, failures: Option<Failures>, moves: seq<A.Move>,
                          records: seq<Event>, keyBefore: int, keyAfter: int)
    requires ValidSettings(s) && Scheduled(s, node, Some(interval), failures, moves)
  {
    && Lists(s, node, interval.0, interval.1).Ok? && FillsFor(s, node, interval, failures, moves).Ok?
    && var events := EventsOf(s, Lists(s, node, interval.0, interval.1).value,
                              FillsFor(s, node, interval, failures, moves).value);
       && records == ExportBatch(events, Appended(s), s.rescale)
       && keyAfter == if events == [] then keyBefore else MaxKey(KeyedEvents(events))
  }

  method MaxPrimaryKey(events: array<Event>) returns (maxPrimaryKey: int)
    ensures maxPrimaryKey == MaxKey(events[..])
  {
    maxPrimaryKey := -1;
    for i := 0 to events.Length
      invariant maxPrimaryKey == MaxKey(events[..i])
    {
      assert events[..i + 1][..i] == events[..i];
      if KeyOf(events[i]) > maxPrimaryKey {
        maxPrimaryKey := KeyOf(events[i]);
      }
    }
    assert events[..events.Length] == events[..];
  }

  method ToArray(s: seq<Event>) returns (a: array<Event>)
    ensures fresh(a) && a[..] == s
  {
    a := new Event[|s|](i requires 0 <= i < |s| => s[i]);
  }

  /** Set the keys, and merge the overwritten events into the others. */
  method KeyAndMerge(list: seq<Event>, copies: seq<Event>) returns (result: seq<Event>, maxKey: int)
    ensures result == Merged(KeyedEvents(list), Keyed(copies, list))
    ensures maxKey == MaxKey(KeyedEvents(list))
  {
    var events := ToArray(list);
    var overwrittenEvents := ToArray(copies);
    var overflowing := ExtendEventsWithPrimaryKey(events, overwrittenEvents);
    maxKey := MaxPrimaryKey(events);
    result := events[..] + overwrittenEvents[..];
    if |copies| > 0 {
      var resultEvents := ToArray(result);
      PrimaryKeyOrderOrders();
      StableSort(resultEvents, PrimaryKeyOrder);
      result := resultEvents[..];
    }
  }

  // ----- What is exported for a block depends on the chain and the settings only -----

  /** The events of a block fetched alone. */
  function BlockEvents(s: Settings, node: Node, block: int): seq<Event> {
    if s.mode.ExtractExactOverwrite? then
      MapSeq(MapSeq(BlockTransfers(node, Some(AllOldContracts(s.overwrites)), s.custom, block), Unkeyed),
             ChangesTo(s.overwrites, s.rescale))
      + MapSeq(BlockTransfers(node, Some(s.contractsUnmodified), s.custom, block), Unkeyed)
    else MapSeq(BlockTransfers(node, None, s.custom, block), Unkeyed)
  }

  lemma {:induction false} OfBlockUnkeyed(ts: seq<Transfer>, block: int)
    ensures OfBlock(MapSeq(ts, Unkeyed), block) == MapSeq(Filter(ts, TransferInBlock(block)), Unkeyed)
  {
    if ts != [] {
      OfBlockUnkeyed(ts[1..], block);
      assert MapSeq(ts, Unkeyed)[1..] == MapSeq(ts[1..], Unkeyed);
    }
  }

  lemma OfBlockChanged(s: Settings, events: seq<Event>, block: int)
    ensures OfBlock(MapSeq(events, ChangesTo(s.overwrites, s.rescale)), block)
         == MapSeq(OfBlock(events, block), ChangesTo(s.overwrites, s.rescale))
  {
    forall e ensures InBlock(block)(ChangesTo(s.overwrites, s.rescale)(e)) == InBlock(block)(e) {
      ChangesKeepBlock(s.overwrites, s.rescale, e);
    }
    FilterMapSeq(events, ChangesTo(s.overwrites, s.rescale), InBlock(block));
  }

  /** The transfers of a fetch that is Ok, as events. */
  lemma FetchedOfBlock(s: Settings, node: Node, filter: ContractFilter, lo: int, hi: int, block: int)
    requires ValidSettings(s) && OneBlockPerTransaction(node) && LogsOfTheirBlock(node)
    requires FetchPastEvents(node, filter, s.custom, lo, hi, s.concurrency).Ok?
    ensures var events := MapSeq(FetchPastEvents(node, filter, s.custom, lo, hi, s.concurrency).value, Unkeyed);
            var transfers := if lo <= block <= hi then BlockTransfers(node, filter, s.custom, block) else [];
            var alone := MapSeq(transfers, Unkeyed);
            && OfBlock(events, block) == alone
            && OfBlock(MapSeq(events, ChangesTo(s.overwrites, s.rescale)), block)
               == MapSeq(alone, ChangesTo(s.overwrites, s.rescale))
  {
    var transfers := FetchPastEvents(node, filter, s.custom, lo, hi, s.concurrency).value;
    FetchOfBlock(node, filter, s.custom, lo, hi, s.concurrency, block);
    OfBlockUnkeyed(transfers, block);
    OfBlockChanged(s, MapSeq(transfers, Unkeyed), block);
  }

  /** A block of a fetched interval holds the events of the block fetched alone, in that order. */
  lemma EventsForOfBlock(s: Settings, node: Node, lo: int, hi: int, block: int)
    requires ValidSettings(s) && OneBlockPerTransaction(node) && LogsOfTheirBlock(node)
             && EventsFor(s, node, lo, hi).Ok?
    ensures OfBlock(EventsFor(s, node, lo, hi).value, block) ==
            if lo <= block <= hi then BlockEvents(s, node, block) else []
  {
    if s.mode.ExtractExactOverwrite? {
      var olds := FetchPastEvents(node, Some(AllOldContracts(s.overwrites)), s.custom, lo, hi, s.concurrency).value;
      var others := FetchPastEvents(node, Some(s.contractsUnmodified), s.custom, lo, hi, s.concurrency).value;
      FetchedOfBlock(s, node, Some(AllOldContracts(s.overwrites)), lo, hi, block);
      FetchedOfBlock(s, node, Some(s.contractsUnmodified), lo, hi, block);
      FilterAppend(MapSeq(MapSeq(olds, Unkeyed), ChangesTo(s.overwrites, s.rescale)), MapSeq(others, Unkeyed),
                   InBlock(block));
    } else {
      FetchedOfBlock(s, node, None, lo, hi, block);
    }
  }

  /** The records that a call returns for an interval. */
  function RangeRecords(s: Settings, node: Node, lo: int, hi: int): seq<Event>
    requires ValidSettings(s) && EventsFor(s, node, lo, hi).Ok?
  {
    ExportBatch(EventsFor(s, node, lo, hi).value, Appended(s), s.rescale)
  }

  /**
   * Whatever interval a block is exported in, through however many connections and split queries, its
   * records and their keys are those of exporting the block alone; of other blocks there are none.
   */
  lemma BlockExportIsStable(s: Settings, node: Node, lo: int, hi: int, block: int)
    requires ValidSettings(s) && OneBlockPerTransaction(node) && LogsOfTheirBlock(node)
             && EventsFor(s, node, lo, hi).Ok?
    ensures OfBlock(RangeRecords(s, node, lo, hi), block)
         == ExportBatch(if lo <= block <= hi then BlockEvents(s, node, block) else [], Appended(s), s.rescale)
  {
    RecordsOfBlock(EventsFor(s, node, lo, hi).value, Appended(s), s.rescale, block);
    EventsForOfBlock(s, node, lo, hi, block);
  }
}

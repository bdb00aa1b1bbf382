/** When the keys of exported transfers identify them, told from the node's logs and the settings. */
module ExportKeys {
  import opened Common
  import opened Chunks
  import opened FetchEvents
  import opened FilterEvents
  import opened CustomDistribution
  import opened ChunkedFetch
  import opened ContractOverwrites
  import opened EventKeys
  import opened EventBatches
  import opened Erc20Workers

  // ----- Lists whose elements differ in something -----

  ghost predicate DistinctBy<T, K>(s: seq<T>, key: T -> K) {
    forall i, j :: 0 <= i < j < |s| ==> key(s[i]) != key(s[j])
  }

  ghost predicate DifferBy<T, K>(a: seq<T>, b: seq<T>, key: T -> K) {
    forall x, y :: x in a && y in b ==> key(x) != key(y)
  }

  lemma DistinctAppend<T, K>(a: seq<T>, b: seq<T>, key: T -> K)
    ensures DistinctBy(a + b, key) <==> DistinctBy(a, key) && DistinctBy(b, key) && DifferBy(a, b, key)
  {
    var ab := a + b;
    if DistinctBy(ab, key) {
      forall i, j | 0 <= i < j < |b| ensures key(b[i]) != key(b[j]) {
        assert b[i] == ab[|a| + i] && b[j] == ab[|a| + j];
      }
      forall i, j | 0 <= i < j < |a| ensures key(a[i]) != key(a[j]) {
        assert a[i] == ab[i] && a[j] == ab[j];
      }
      forall x, y | x in a && y in b ensures key(x) != key(y) {
        var i :| 0 <= i < |a| && a[i] == x;
        var j :| 0 <= j < |b| && b[j] == y;
        assert x == ab[i] && y == ab[|a| + j];
      }
    }
  }

  lemma {:induction false} DistinctFilter<T, K>(s: seq<T>, p: T -> bool, key: T -> K)
    requires DistinctBy(s, key)
    ensures DistinctBy(Filter(s, p), key)
  {
    if s != [] {
      assert s == [s[0]] + s[1..];
      DistinctAppend([s[0]], s[1..], key);
      DistinctFilter(s[1..], p, key);
      forall y | y in Filter(s[1..], p) ensures y in s[1..] {
        FilterMember(s[1..], p, y);
      }
      DistinctAppend(if p(s[0]) then [s[0]] else [], Filter(s[1..], p), key);
    }
  }

  // ----- From the logs of the node to the transfers of a range -----

  function LogPlace(e: RawEvent): (int, int) {
    (e.blockNumber, e.logIndex)
  }

  function TransferPlace(t: Transfer): (int, int) {
    (t.blockNumber, t.logIndex)
  }

  function LogIndexOf(e: RawEvent): int {
    e.logIndex
  }

  /** No two logs of a block have the same index. */
  ghost predicate DistinctLogIndexes(node: Node) {
    forall b :: DistinctBy(node.logs(b), LogIndexOf)
  }

  lemma LogFrom(node: Node, filter: ContractFilter, lo: int, hi: int, e: RawEvent)
    requires LogsOfTheirBlock(node) && e in BlockLogs(node, filter, lo, hi)
    ensures lo <= e.blockNumber <= hi && e in node.logs(e.blockNumber) && Wanted(filter, e)
  {
    BlockLogsMember(node, filter, lo, hi, e);
  }

  lemma {:induction false} BlockLogsDistinct(node: Node, filter: ContractFilter, lo: int, hi: int)
    requires LogsOfTheirBlock(node) && DistinctLogIndexes(node)
    ensures DistinctBy(BlockLogs(node, filter, lo, hi), LogPlace)
    decreases hi - lo
  {
    if lo <= hi {
      var here, later := Filter(node.logs(lo), Wants(filter)), BlockLogs(node, filter, lo + 1, hi);
      BlockLogsDistinct(node, filter, lo + 1, hi);
      assert DistinctBy(node.logs(lo), LogIndexOf);
      DistinctFilter(node.logs(lo), Wants(filter), LogPlace);
      forall e, f | e in here && f in later ensures LogPlace(e) != LogPlace(f) {
        FilterMember(node.logs(lo), Wants(filter), e);
        LogFrom(node, filter, lo + 1, hi, f);
      }
      DistinctAppend(here, later, LogPlace);
    }
  }

  lemma {:induction false} DecodedDistinct(events: seq<RawEvent>)
    requires DistinctBy(events, LogPlace)
    ensures DistinctBy(DecodedAll(events), TransferPlace)
  {
    if events != [] {
      assert events == [events[0]] + events[1..];
      DistinctAppend([events[0]], events[1..], LogPlace);
      DecodedDistinct(events[1..]);
      DecodedAppend([events[0]], events[1..]);
      assert DecodedAll([events[0]]) == DecodedOne(events[0]) by {
        assert MapSeq([events[0]], DecodedOne) == [DecodedOne(events[0])];
        assert Flatten([DecodedOne(events[0])]) == DecodedOne(events[0]) + Flatten([]);
      }
      forall s, t | s in DecodedOne(events[0]) && t in DecodedAll(events[1..])
          ensures TransferPlace(s) != TransferPlace(t) {
        DecodedPlace(events[0], s);
        DecodedComesFromALog(events[1..], t);
      }
      DistinctAppend(DecodedOne(events[0]), DecodedAll(events[1..]), TransferPlace);
    }
  }

  lemma {:induction false} RunsDistinct(runs: seq<Run>)
    requires DistinctBy(Flatten(runs), TransferPlace)
    ensures DistinctBy(Flatten(FilterRuns(runs)), TransferPlace)
  {
    if runs != [] {
      DistinctAppend(runs[0], Flatten(runs[1..]), TransferPlace);
      RunsDistinct(runs[1..]);
      DistinctFilter(runs[0], Keeps(runs[0]), TransferPlace);
      assert FilterRuns(runs)[1..] == FilterRuns(runs[1..]);
      forall s, t | s in FilterRun(runs[0]) && t in Flatten(FilterRuns(runs[1..]))
          ensures TransferPlace(s) != TransferPlace(t) {
        FilterMember(runs[0], Keeps(runs[0]), s);
        FilteredIsPart(runs[1..], t);
      }
      DistinctAppend(FilterRun(runs[0]), Flatten(FilterRuns(runs[1..])), TransferPlace);
    }
  }

  /** The transfers of a range have places of their own. */
  lemma UnlimitedDistinct(node: Node, filter: ContractFilter, lo: int, hi: int)
    requires LogsOfTheirBlock(node) && DistinctLogIndexes(node)
    ensures DistinctBy(Unlimited(node, filter, lo, hi), TransferPlace)
  {
    var decoded := DecodedAll(BlockLogs(node, filter, lo, hi));
    BlockLogsDistinct(node, filter, lo, hi);
    DecodedDistinct(BlockLogs(node, filter, lo, hi));
    DistinctFilter(decoded, HasHash, TransferPlace);
    GroupsAreTransactions(decoded);
    RunsDistinct(Grouped(decoded));
  }

  /** The log a transfer was decoded from. */
  lemma TransferFrom(node: Node, filter: ContractFilter, lo: int, hi: int, t: Transfer) returns (e: RawEvent)
    requires LogsOfTheirBlock(node) && t in Unlimited(node, filter, lo, hi)
    ensures e in node.logs(t.blockNumber) && e.logIndex == t.logIndex && Wanted(filter, e)
  {
    FilteredHasHashes(DecodedAll(BlockLogs(node, filter, lo, hi)), t);
    DecodedComesFromALog(BlockLogs(node, filter, lo, hi), t);
    e :| e in BlockLogs(node, filter, lo, hi) && t.blockNumber == e.blockNumber && t.logIndex == e.logIndex;
    LogFrom(node, filter, lo, hi, e);
  }

  // ----- From the transfers to their keys -----

  function EventPlace(e: Event): (int, int) {
    TransferPlace(e.transfer)
  }

  /** A contract is both among the old ones and among the unmodified ones. */
  predicate Shared(olds: seq<string>, others: seq<string>) {
    exists i, j :: 0 <= i < |olds| && 0 <= j < |others| && Lower(olds[i]) == Lower(others[j])
  }

  lemma NoTransferInBoth(node: Node, olds: seq<string>, others: seq<string>, lo: int, hi: int)
    requires LogsOfTheirBlock(node) && DistinctLogIndexes(node) && !Shared(olds, others)
    ensures DifferBy(Unlimited(node, Some(olds), lo, hi), Unlimited(node, Some(others), lo, hi), TransferPlace)
  {
    forall s, t | s in Unlimited(node, Some(olds), lo, hi) && t in Unlimited(node, Some(others), lo, hi)
      ensures TransferPlace(s) != TransferPlace(t)
    {
      var e := TransferFrom(node, Some(olds), lo, hi, s);
      var f := TransferFrom(node, Some(others), lo, hi, t);
      if TransferPlace(s) == TransferPlace(t) {
        SameLog(node, s.blockNumber, e, f);
        WantedByBoth(olds, others, e);
      }
    }
  }

  lemma WantedByBoth(olds: seq<string>, others: seq<string>, e: RawEvent)
    ensures Wanted(Some(olds), e) && Wanted(Some(others), e) ==> Shared(olds, others)
  {
  }

  lemma SameLog(node: Node, b: int, e: RawEvent, f: RawEvent)
    requires DistinctLogIndexes(node) && e in node.logs(b) && f in node.logs(b) && e.logIndex == f.logIndex
    ensures e == f
  {
    assert DistinctBy(node.logs(b), LogIndexOf);
    var i :| 0 <= i < |node.logs(b)| && node.logs(b)[i] == e;
    var j :| 0 <= j < |node.logs(b)| && node.logs(b)[j] == f;
  }

  lemma ChangedPlace(s: Settings, t: Transfer)
    requires ValidSettings(s)
    ensures EventPlace(ChangesTo(s.overwrites, s.rescale)(Unkeyed(t))) == TransferPlace(t)
  {
    ChangedKeepsPlace(s.overwrites, s.rescale, Unkeyed(t));
  }

  ghost predicate SamePlaces(events: seq<Event>, transfers: seq<Transfer>) {
    |events| == |transfers| && forall i :: 0 <= i < |events| ==> EventPlace(events[i]) == TransferPlace(transfers[i])
  }

  lemma SamePlacesAppend(a: seq<Event>, b: seq<Event>, s: seq<Transfer>, t: seq<Transfer>)
    requires SamePlaces(a, s) && SamePlaces(b, t)
    ensures SamePlaces(a + b, s + t)
  {
  }

  lemma UnkeyedPlaces(transfers: seq<Transfer>)
    ensures SamePlaces(MapSeq(transfers, Unkeyed), transfers)
  {
  }

  lemma ChangedPlaces(s: Settings, transfers: seq<Transfer>)
    requires ValidSettings(s)
    ensures SamePlaces(MapSeq(MapSeq(transfers, Unkeyed), ChangesTo(s.overwrites, s.rescale)), transfers)
  {
    forall i | 0 <= i < |transfers|
      ensures EventPlace(ChangesTo(s.overwrites, s.rescale)(Unkeyed(transfers[i]))) == TransferPlace(transfers[i])
    {
      ChangedPlace(s, transfers[i]);
    }
  }

  lemma MappedDistinct(a: seq<Transfer>, b: seq<Event>)
    requires SamePlaces(b, a)
    ensures DistinctBy(b, EventPlace) <==> DistinctBy(a, TransferPlace)
  {
    if DistinctBy(b, EventPlace) {
      forall i, j | 0 <= i < j < |a| ensures TransferPlace(a[i]) != TransferPlace(a[j]) {
        assert EventPlace(b[i]) != EventPlace(b[j]);
      }
    } else {
      var i, j :| 0 <= i < j < |b| && EventPlace(b[i]) == EventPlace(b[j]);
      assert TransferPlace(a[i]) == TransferPlace(a[j]);
    }
  }

  /** The transfers behind the events of a block. */
  function TransfersBehind(s: Settings, node: Node, block: int): seq<Transfer> {
    if s.mode.ExtractExactOverwrite?
    then BlockTransfers(node, Some(AllOldContracts(s.overwrites)), s.custom, block)
         + BlockTransfers(node, Some(s.contractsUnmodified), s.custom, block)
    else BlockTransfers(node, None, s.custom, block)
  }

  lemma EventsKeepPlaces(s: Settings, node: Node, block: int)
    requires ValidSettings(s)
    ensures SamePlaces(BlockEvents(s, node, block), TransfersBehind(s, node, block))
  {
    if s.mode.ExtractExactOverwrite? {
      var olds := BlockTransfers(node, Some(AllOldContracts(s.overwrites)), s.custom, block);
      var others := BlockTransfers(node, Some(s.contractsUnmodified), s.custom, block);
      ChangedPlaces(s, olds);
      UnkeyedPlaces(others);
      SamePlacesAppend(MapSeq(MapSeq(olds, Unkeyed), ChangesTo(s.overwrites, s.rescale)), MapSeq(others, Unkeyed),
                       olds, others);
    } else {
      UnkeyedPlaces(BlockTransfers(node, None, s.custom, block));
    }
  }

  // ----- Events of an interval have places of their own -----

  /** There are contracts in both lists, and one of them is the contract with the constant transfers. */
  predicate MixesDistribution(olds: seq<string>, others: seq<string>, c: Custom) {
    olds != [] && others != [] && (c.contract in olds || c.contract in others)
  }

  /** The two lists share no contract, and constant transfers are added to neither beside the other. */
  predicate ListsApart(olds: seq<string>, others: seq<string>, c: Custom) {
    !Shared(olds, others) && !MixesDistribution(olds, others, c)
  }

  predicate OwnPlaces(s: Settings) {
    s.mode.ExtractExactOverwrite? ==> ListsApart(AllOldContracts(s.overwrites), s.contractsUnmodified, s.custom)
  }

  lemma ConstantsBehind(node: Node, filter: ContractFilter, c: Custom)
    ensures var transfers := Unlimited(node, filter, c.blockNumber, c.blockNumber);
            NumberedFrom(Constants(node, filter, c), c.blockNumber, LastRealLogIndex(transfers, c.blockNumber))
    ensures |Constants(node, filter, c)| == if Asks(filter, c) then |Filter(c.rows, Usable)| else 0
    ensures |Filter(c.rows, Usable)| <= |c.rows|
  {
    AddedPlaces(Unlimited(node, filter, c.blockNumber, c.blockNumber), c);
  }

  lemma NumberedDistinct(transfers: seq<Transfer>, added: seq<Transfer>, block: int)
    requires DistinctBy(transfers, TransferPlace) && NumberedFrom(added, block, LastRealLogIndex(transfers, block))
    ensures DistinctBy(transfers + added, TransferPlace)
  {
    LastRealIsGreatest(transfers, block);
    DistinctAppend(transfers, added, TransferPlace);
  }

  lemma BlockTransfersDistinct(node: Node, filter: ContractFilter, c: Custom, block: int)
    requires LogsOfTheirBlock(node) && DistinctLogIndexes(node)
    ensures DistinctBy(BlockTransfers(node, filter, c, block), TransferPlace)
  {
    UnlimitedDistinct(node, filter, block, block);
    ConstantsBehind(node, filter, c);
    NumberedDistinct(Unlimited(node, filter, block, block),
                     Within(Constants(node, filter, c), c.blockNumber, block, block),
                     block);
  }

  lemma NoContractsNoTransfers(node: Node, c: Custom, block: int)
    ensures BlockTransfers(node, Some([]), c, block) == []
  {
    NothingWanted(node, block, block);
    UnlimitedOfNothing(node, Some([]), block, block);
    ConstantsBehind(node, Some([]), c);
  }

  lemma UnaskedIsPlain(node: Node, filter: ContractFilter, c: Custom, block: int)
    requires !Asks(filter, c)
    ensures BlockTransfers(node, filter, c, block) == Unlimited(node, filter, block, block)
  {
    ConstantsBehind(node, filter, c);
  }

  lemma BlockListsDiffer(node: Node, olds: seq<string>, others: seq<string>, c: Custom, block: int)
    requires LogsOfTheirBlock(node) && DistinctLogIndexes(node) && ListsApart(olds, others, c)
    ensures DifferBy(BlockTransfers(node, Some(olds), c, block), BlockTransfers(node, Some(others), c, block),
                     TransferPlace)
  {
    NoContractsNoTransfers(node, c, block);
    if olds != [] && others != [] {
      UnaskedIsPlain(node, Some(olds), c, block);
      UnaskedIsPlain(node, Some(others), c, block);
      NoTransferInBoth(node, olds, others, block, block);
    }
  }

  lemma BlockEventsDistinct(s: Settings, node: Node, block: int)
    requires ValidSettings(s) && LogsOfTheirBlock(node) && DistinctLogIndexes(node) && OwnPlaces(s)
    ensures DistinctBy(BlockEvents(s, node, block), EventPlace)
  {
    if s.mode.ExtractExactOverwrite? {
      var olds, others := AllOldContracts(s.overwrites), s.contractsUnmodified;
      BlockTransfersDistinct(node, Some(olds), s.custom, block);
      BlockTransfersDistinct(node, Some(others), s.custom, block);
      BlockListsDiffer(node, olds, others, s.custom, block);
      DistinctAppend(BlockTransfers(node, Some(olds), s.custom, block),
                     BlockTransfers(node, Some(others), s.custom, block),
                     TransferPlace);
    } else {
      BlockTransfersDistinct(node, None, s.custom, block);
    }
    EventsKeepPlaces(s, node, block);
    MappedDistinct(TransfersBehind(s, node, block), BlockEvents(s, node, block));
  }

  /** Places that are distinct within each block are distinct. */
  lemma {:induction false} DistinctByBlocks(events: seq<Event>)
    requires forall b :: DistinctBy(OfBlock(events, b), EventPlace)
    ensures DistinctBy(events, EventPlace)
  {
    if events != [] {
      var init, last := events[..|events| - 1], events[|events| - 1];
      assert events == init + [last];
      forall b ensures DistinctBy(OfBlock(init, b), EventPlace) {
        FilterSnoc(init, last, InBlock(b));
        assert DistinctBy(OfBlock(events, b), EventPlace);
        DistinctAppend(OfBlock(init, b), [last], EventPlace);
      }
      DistinctByBlocks(init);
      var here := OfBlock(init, last.transfer.blockNumber);
      FilterSnoc(init, last, InBlock(last.transfer.blockNumber));
      assert OfBlock(events, last.transfer.blockNumber) == here + [last];
      DistinctAppend(here, [last], EventPlace);
      forall e | e in init ensures EventPlace(e) != EventPlace(last) {
        FilterMember(init, InBlock(last.transfer.blockNumber), e);
      }
      DistinctAppend(init, [last], EventPlace);
    }
  }

  /**
   * Log indexes that are distinct within each block, and lists of contracts apart, give the events places of their own.
   */
  lemma PlacesAreDistinct(s: Settings, node: Node, lo: int, hi: int)
    requires ValidSettings(s) && OneBlockPerTransaction(node) && LogsOfTheirBlock(node) && DistinctLogIndexes(node)
    requires OwnPlaces(s) && EventsFor(s, node, lo, hi).Ok?
    ensures DistinctPlaces(EventsFor(s, node, lo, hi).value)
  {
    var events := EventsFor(s, node, lo, hi).value;
    forall b ensures DistinctBy(OfBlock(events, b), EventPlace) {
      EventsForOfBlock(s, node, lo, hi, b);
      BlockEventsDistinct(s, node, b);
    }
    DistinctByBlocks(events);
    assert forall e, f: Event :: EventPlace(e) == EventPlace(f) <==> At(e, f.transfer.blockNumber, f.transfer.logIndex);
  }

  // ----- Keys -----

  /** Log indexes start at 0, and leave room for the constant transfers below the multiplier of the keys. */
  ghost predicate RoomForKeys(node: Node, c: Custom) {
    && |c.rows| < PRIMARY_KEY_MULTIPLIER
    && forall b, e :: e in node.logs(b) ==> 0 <= e.logIndex < PRIMARY_KEY_MULTIPLIER - |c.rows|
  }

  ghost predicate IndexesNotNegative(node: Node) {
    forall b, e :: e in node.logs(b) ==> e.logIndex >= 0
  }

  /** The log indexes are fit for keys, and when `tight` they also stay below the multiplier. */
  ghost predicate Fit(node: Node, c: Custom, tight: bool) {
    if tight then RoomForKeys(node, c) else IndexesNotNegative(node)
  }

  predicate FitIndex(index: int, tight: bool) {
    0 <= index && (tight ==> index < PRIMARY_KEY_MULTIPLIER)
  }

  lemma BlockIndexes(node: Node, filter: ContractFilter, c: Custom, block: int, tight: bool)
    requires LogsOfTheirBlock(node) && Fit(node, c, tight)
    ensures forall t :: t in BlockTransfers(node, filter, c, block) ==> FitIndex(t.logIndex, tight)
  {
    var transfers := Unlimited(node, filter, block, block);
    forall t | t in transfers ensures 0 <= t.logIndex && (tight ==> t.logIndex < PRIMARY_KEY_MULTIPLIER - |c.rows|) {
      var e := TransferFrom(node, filter, block, block, t);
    }
    ConstantsBehind(node, filter, c);
    LastRealIsGreatest(transfers, block);
  }

  lemma BlockEventIndex(s: Settings, node: Node, block: int, e: Event, tight: bool)
    requires ValidSettings(s) && LogsOfTheirBlock(node) && Fit(node, s.custom, tight)
             && e in BlockEvents(s, node, block)
    ensures FitIndex(e.transfer.logIndex, tight)
  {
    var events, transfers := BlockEvents(s, node, block), TransfersBehind(s, node, block);
    var i :| 0 <= i < |events| && events[i] == e;
    EventsKeepPlaces(s, node, block);
    assert EventPlace(events[i]) == TransferPlace(transfers[i]) && transfers[i] in transfers;
    BlockIndexes(node, None, s.custom, block, tight);
    BlockIndexes(node, Some(AllOldContracts(s.overwrites)), s.custom, block, tight);
    BlockIndexes(node, Some(s.contractsUnmodified), s.custom, block, tight);
  }

  lemma EventIndexes(s: Settings, node: Node, lo: int, hi: int, tight: bool)
    requires ValidSettings(s) && OneBlockPerTransaction(node) && LogsOfTheirBlock(node)
             && EventsFor(s, node, lo, hi).Ok?
    requires Fit(node, s.custom, tight)
    ensures forall e :: e in EventsFor(s, node, lo, hi).value ==> FitIndex(e.transfer.logIndex, tight)
  {
    var events := EventsFor(s, node, lo, hi).value;
    forall e | e in events ensures FitIndex(e.transfer.logIndex, tight) {
      var b := e.transfer.blockNumber;
      FilterMember(events, InBlock(b), e);
      EventsForOfBlock(s, node, lo, hi, b);
      BlockEventIndex(s, node, b, e, tight);
    }
  }

  /**
   * Log indexes that are distinct within each block, and lists of contracts apart, are all it takes: unless a
   * block overflows, the records of an interval have keys of their own, and a key tells the block.
   */
  lemma RecordsHaveOwnKeys(s: Settings, node: Node, lo: int, hi: int)
    requires ValidSettings(s) && OneBlockPerTransaction(node) && LogsOfTheirBlock(node)
    requires DistinctLogIndexes(node) && IndexesNotNegative(node)
    requires OwnPlaces(s) && EventsFor(s, node, lo, hi).Ok?
    requires var events := EventsFor(s, node, lo, hi).value;
             NoOverflow(events, Extracted(events, Appended(s), s.rescale))
    ensures DistinctKeys(RangeRecords(s, node, lo, hi)) && KeysInBlocks(RangeRecords(s, node, lo, hi))
  {
    PlacesAreDistinct(s, node, lo, hi);
    EventIndexes(s, node, lo, hi, false);
    BatchKeysIdentifyRecords(EventsFor(s, node, lo, hi).value, Appended(s), s.rescale);
  }

  // ----- Exactly when keys identify records -----

  ghost predicate Orderly(node: Node, c: Custom) {
    OneBlockPerTransaction(node) && LogsOfTheirBlock(node) && DistinctLogIndexes(node) && RoomForKeys(node, c)
  }

  /** On every orderly node, the records of every interval have keys of their own. */
  ghost predicate KeysIdentify(s: Settings)
    requires ValidSettings(s)
  {
    forall node, lo, hi :: Orderly(node, s.custom) && EventsFor(s, node, lo, hi).Ok?
        ==> DistinctKeys(RangeRecords(s, node, lo, hi))
  }

  lemma NothingExtracted(events: seq<Event>, rescale: Rescale)
    ensures Extracted(events, [], rescale) == []
  {
    FilterNone(events, IsOverwritten([]));
  }

  lemma NoOverflowBelow(events: seq<Event>)
    requires forall e :: e in events ==> e.transfer.logIndex < PRIMARY_KEY_MULTIPLIER
    ensures NoOverflow(events, [])
  {
    forall b ensures !Overflows(events, [], b) {
      MaxLogIsGreatest(events, b);
    }
  }

  lemma OwnKeys(s: Settings, node: Node, lo: int, hi: int)
    requires ValidSettings(s) && !s.mode.ExtractAllAppend? && OwnPlaces(s)
    requires Orderly(node, s.custom) && EventsFor(s, node, lo, hi).Ok?
    ensures DistinctKeys(RangeRecords(s, node, lo, hi))
  {
    NothingExtracted(EventsFor(s, node, lo, hi).value, s.rescale);
    EventIndexes(s, node, lo, hi, true);
    NoOverflowBelow(EventsFor(s, node, lo, hi).value);
    RecordsHaveOwnKeys(s, node, lo, hi);
  }

  // ----- Nodes on which two keys are the same -----

  function OnlyLog(address: string, block: int, index: int): RawEvent {
    RawEvent(address, Some([TRANSFER_TOPIC, "", ""]), 0, block, 1, index, 0)
  }

  function OneLogNode(log: RawEvent): Node {
    Node(b => if b == log.blockNumber then [log] else [], (a, b) => Answers, b => None, (a, b) => Some(Range(a, b)))
  }

  lemma OneTransfer(t: Transfer)
    requires HasHash(t) && t.sender != MINT_ADDRESS && t.receiver != BURN_ADDRESS
    ensures Filtered([t]) == [t]
  {
    FilterAll([t], HasHash);
    OneRun([t]);
    FilterAll([t], Keeps([t]));
    assert FilterRuns([[t]]) == [[t]];
    assert Flatten([[t]]) == [t] + Flatten([]);
  }

  /** A plain transfer between two parties, in a transaction. */
  predicate PlainLog(log: RawEvent) {
    log.topics == Some([TRANSFER_TOPIC, "", ""]) && log.transactionHash != 0
  }

  lemma PlainLogDecoded(log: RawEvent) returns (t: Transfer)
    requires PlainLog(log)
    ensures DecodedAll([log]) == [t] && Filtered([t]) == [t]
    ensures TransferPlace(t) == LogPlace(log) && t.contract == Lower(log.address)
  {
    AddressesAreNotNames("");
    assert |Lower(DecodeAddress(""))| == 2 && |QNT_CONTRACT| == 42;
    t := DecodeEvent(log).value;
    assert MapSeq([log], DecodedOne) == [[t]];
    assert Flatten([[t]]) == [t] + Flatten([]);
    OneTransfer(t);
  }

  lemma OneBlockLogs(node: Node, log: RawEvent, filter: ContractFilter)
    requires node.logs(log.blockNumber) == [log]
    ensures BlockLogs(node, filter, log.blockNumber, log.blockNumber) == if Wanted(filter, log) then [log] else []
  {
    assert [log][1..] == [];
    assert Filter([log], Wants(filter)) == (if Wanted(filter, log) then [log] else []) + Filter([], Wants(filter));
    assert BlockLogs(node, filter, log.blockNumber + 1, log.blockNumber) == [];
  }

  /** The one log of a block is fetched by those who ask for its contract. */
  lemma OneLogFetched(node: Node, log: RawEvent, filter: ContractFilter)
    requires PlainLog(log) && node.logs(log.blockNumber) == [log]
    ensures var transfers := Unlimited(node, filter, log.blockNumber, log.blockNumber);
            if !Wanted(filter, log) then transfers == []
            else |transfers| == 1 && TransferPlace(transfers[0]) == LogPlace(log)
                 && transfers[0].contract == Lower(log.address)
  {
    OneBlockLogs(node, log, filter);
    if Wanted(filter, log) {
      var t := PlainLogDecoded(log);
    } else {
      UnlimitedOfNothing(node, filter, log.blockNumber, log.blockNumber);
    }
  }

  lemma OneLogIsOrderly(address: string, block: int, index: int, c: Custom)
    requires 0 <= index < PRIMARY_KEY_MULTIPLIER - |c.rows|
    ensures Orderly(OneLogNode(OnlyLog(address, block, index)), c)
  {
  }

  /** The node answers every query, and returns all blocks it is asked for. */
  ghost predicate Willing(node: Node) {
    && (forall a, b :: node.verdict(a, b) == Answers) && (forall a :: node.receipts(a) == None)
    && forall a, b :: node.blocks(a, b) == Some(Range(a, b))
  }

  lemma InRange(lo: int, hi: int, b: int)
    requires lo <= b <= hi
    ensures b in Range(lo, hi)
  {
    assert Range(lo, hi)[b - lo] == b;
  }

  lemma WillingNeverFails(node: Node, lo: int, hi: int, error: string)
    requires Willing(node) && LogsOfTheirBlock(node) && lo <= hi
    ensures !NodeFails(node, Timestamps(node, lo, hi), lo, hi, error)
  {
    forall b, e | lo <= b <= hi && e in node.logs(b) ensures e.blockNumber in Range(lo, hi) {
      InRange(lo, hi, b);
    }
  }

  lemma WillingFetches(node: Node, filter: ContractFilter, c: Custom, lo: int, hi: int, concurrency: int)
    requires Willing(node) && OneBlockPerTransaction(node) && LogsOfTheirBlock(node) && lo <= hi && concurrency >= 1
    ensures FetchPastEvents(node, filter, c, lo, hi, concurrency).Ok?
  {
    var r := FetchPastEvents(node, filter, c, lo, hi, concurrency);
    ChunkedFetchIsOneQuery(node, filter, c, lo, hi, concurrency);
    if r.Err? {
      WillingNeverFails(node, lo, hi, r.error);
    }
  }

  /** Such a node gives the events of every interval. */
  lemma WillingAnswers(s: Settings, node: Node, lo: int, hi: int)
    requires ValidSettings(s) && Willing(node) && OneBlockPerTransaction(node) && LogsOfTheirBlock(node) && lo <= hi
    ensures EventsFor(s, node, lo, hi).Ok?
  {
    WillingFetches(node, Some(AllOldContracts(s.overwrites)), s.custom, lo, hi, s.concurrency);
    WillingFetches(node, Some(s.contractsUnmodified), s.custom, lo, hi, s.concurrency);
    WillingFetches(node, None, s.custom, lo, hi, s.concurrency);
  }

  lemma KeyedDistinct(events: seq<Event>)
    requires DistinctKeys(MapSeq(events, WithKey))
    ensures DistinctBy(events, EventPlace)
  {
    forall i, j | 0 <= i < j < |events| ensures EventPlace(events[i]) != EventPlace(events[j]) {
      assert MapSeq(events, WithKey)[i].primaryKey != MapSeq(events, WithKey)[j].primaryKey;
    }
  }

  /** Where keys are distinct, so are the places of the two lists in every block. */
  lemma DistinctKeysDiffer(s: Settings, node: Node, block: int)
    requires ValidSettings(s) && s.mode.ExtractExactOverwrite? && Orderly(node, s.custom)
    requires EventsFor(s, node, block, block).Ok? && DistinctKeys(RangeRecords(s, node, block, block))
    ensures DifferBy(BlockTransfers(node, Some(AllOldContracts(s.overwrites)), s.custom, block),
                     BlockTransfers(node, Some(s.contractsUnmodified), s.custom, block), TransferPlace)
  {
    var events := EventsFor(s, node, block, block).value;
    NothingExtracted(events, s.rescale);
    BatchIsComplete(events, [], s.rescale);
    assert Keyed([], events) == [] && MapSeq(events, WithKey) + [] == MapSeq(events, WithKey);
    DistinctKeysPermuted(RangeRecords(s, node, block, block), MapSeq(events, WithKey));
    KeyedDistinct(events);
    DistinctFilter(events, InBlock(block), EventPlace);
    EventsForOfBlock(s, node, block, block, block);
    EventsKeepPlaces(s, node, block);
    MappedDistinct(TransfersBehind(s, node, block), BlockEvents(s, node, block));
    DistinctAppend(BlockTransfers(node, Some(AllOldContracts(s.overwrites)), s.custom, block),
                   BlockTransfers(node, Some(s.contractsUnmodified), s.custom, block), TransferPlace);
  }

  /** A transfer at the place is fetched for the contracts. */
  ghost predicate HasPlace(node: Node, contracts: seq<string>, c: Custom, block: int, index: int) {
    exists t :: t in BlockTransfers(node, Some(contracts), c, block) && TransferPlace(t) == (block, index)
  }

  /** When keys identify, a log of the one node has not the place of a transfer of both lists. */
  lemma NotInBoth(s: Settings, log: RawEvent, index: int)
    requires ValidSettings(s) && s.mode.ExtractExactOverwrite? && KeysIdentify(s) && Orderly(OneLogNode(log), s.custom)
    ensures !HasPlace(OneLogNode(log), AllOldContracts(s.overwrites), s.custom, log.blockNumber, index)
            || !HasPlace(OneLogNode(log), s.contractsUnmodified, s.custom, log.blockNumber, index)
  {
    WillingAnswers(s, OneLogNode(log), log.blockNumber, log.blockNumber);
    DistinctKeysDiffer(s, OneLogNode(log), log.blockNumber);
  }

  lemma LogHasPlace(contracts: seq<string>, address: string, block: int, index: int, c: Custom)
    requires Wanted(Some(contracts), OnlyLog(address, block, index))
    ensures HasPlace(OneLogNode(OnlyLog(address, block, index)), contracts, c, block, index)
  {
    var node := OneLogNode(OnlyLog(address, block, index));
    OneLogFetched(node, OnlyLog(address, block, index), Some(contracts));
    assert Unlimited(node, Some(contracts), block, block)[0] in BlockTransfers(node, Some(contracts), c, block);
  }

  /** The first constant transfer takes the index that a log of the other list may have. */
  lemma FirstAddedHasPlace(contracts: seq<string>, address: string, c: Custom)
    requires c.contract in contracts && Filter(c.rows, Usable) != []
    requires !Wanted(Some(contracts), OnlyLog(address, c.blockNumber, 1))
    ensures HasPlace(OneLogNode(OnlyLog(address, c.blockNumber, 1)), contracts, c, c.blockNumber, 1)
  {
    var node := OneLogNode(OnlyLog(address, c.blockNumber, 1));
    OneLogFetched(node, OnlyLog(address, c.blockNumber, 1), Some(contracts));
    ConstantsBehind(node, Some(contracts), c);
    assert TransferPlace(Constants(node, Some(contracts), c)[0]) == (c.blockNumber, 1);
    assert Constants(node, Some(contracts), c)[0] in BlockTransfers(node, Some(contracts), c, c.blockNumber);
  }

  /** When keys identify, no contract is in both lists. */
  lemma NothingShared(s: Settings)
    requires ValidSettings(s) && s.mode.ExtractExactOverwrite? && |s.custom.rows| < PRIMARY_KEY_MULTIPLIER
             && KeysIdentify(s)
    ensures !Shared(AllOldContracts(s.overwrites), s.contractsUnmodified)
  {
    var olds, others := AllOldContracts(s.overwrites), s.contractsUnmodified;
    if i, j :| 0 <= i < |olds| && 0 <= j < |others| && Lower(olds[i]) == Lower(others[j]) {
      OneLogIsOrderly(others[j], 0, 0, s.custom);
      LogHasPlace(olds, others[j], 0, 0, s.custom);
      LogHasPlace(others, others[j], 0, 0, s.custom);
      NotInBoth(s, OnlyLog(others[j], 0, 0), 0);
    }
  }

  lemma PlaceInBoth(adding: seq<string>, beside: seq<string>, c: Custom)
    requires c.contract in adding && beside != [] && !Shared(beside, adding) && Filter(c.rows, Usable) != []
    ensures var node := OneLogNode(OnlyLog(beside[0], c.blockNumber, 1));
            HasPlace(node, adding, c, c.blockNumber, 1) && HasPlace(node, beside, c, c.blockNumber, 1)
  {
    var log := OnlyLog(beside[0], c.blockNumber, 1);
    WantedByBoth(beside, adding, log);
    LogHasPlace(beside, beside[0], c.blockNumber, 1, c);
    FirstAddedHasPlace(adding, beside[0], c);
  }

  lemma SharedEitherWay(olds: seq<string>, others: seq<string>)
    ensures Shared(olds, others) <==> Shared(others, olds)
  {
  }

  /** When keys identify, the contract with the constant transfers is not in one of two lists. */
  lemma NothingMixed(s: Settings)
    requires ValidSettings(s) && s.mode.ExtractExactOverwrite? && KeysIdentify(s)
    requires |s.custom.rows| < PRIMARY_KEY_MULTIPLIER - 1 && Filter(s.custom.rows, Usable) != []
    requires !Shared(AllOldContracts(s.overwrites), s.contractsUnmodified)
    ensures !MixesDistribution(AllOldContracts(s.overwrites), s.contractsUnmodified, s.custom)
  {
    var olds, others, c := AllOldContracts(s.overwrites), s.contractsUnmodified, s.custom;
    SharedEitherWay(olds, others);
    if olds != [] && others != [] && c.contract in olds {
      PlaceInBoth(olds, others, c);
      OneLogIsOrderly(others[0], c.blockNumber, 1, c);
      NotInBoth(s, OnlyLog(others[0], c.blockNumber, 1), 1);
    }
    if olds != [] && others != [] && c.contract in others {
      PlaceInBoth(others, olds, c);
      OneLogIsOrderly(olds[0], c.blockNumber, 1, c);
      NotInBoth(s, OnlyLog(olds[0], c.blockNumber, 1), 1);
    }
  }

  /**
   * Without appended copies, records have keys of their own on every orderly node exactly when contracts exported
   * under a new address and contracts exported as they are have none in common, and the contract with the
   * constant transfers is not in one list beside another.
   */
  lemma KeysIdentifyIff(s: Settings)
    requires ValidSettings(s) && !s.mode.ExtractAllAppend?
    requires |s.custom.rows| < PRIMARY_KEY_MULTIPLIER - 1 && Filter(s.custom.rows, Usable) != []
    ensures KeysIdentify(s) <==> OwnPlaces(s)
  {
    if KeysIdentify(s) && s.mode.ExtractExactOverwrite? {
      NothingShared(s);
      NothingMixed(s);
    }
    if OwnPlaces(s) {
      forall node, lo, hi | Orderly(node, s.custom) && EventsFor(s, node, lo, hi).Ok?
        ensures DistinctKeys(RangeRecords(s, node, lo, hi))
      {
        OwnKeys(s, node, lo, hi);
      }
    }
  }
}

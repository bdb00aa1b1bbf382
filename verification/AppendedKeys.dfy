/** Keys when the copies of overwritten events are appended: exactly when a copy takes the key of another record. */
module AppendedKeys {
  import opened Common
  import opened Chunks
  import opened FetchEvents
  import opened FilterEvents
  import opened ChunkedFetch
  import opened ContractOverwrites
  import opened EventKeys
  import opened EventBatches
  import opened Erc20Workers
  import opened ExportKeys

  /** The copies of a block get the indexes behind the greatest of its logs. */
  predicate CopyIndex(events: seq<Event>, over: seq<Event>, block: int, index: int) {
    var maxLog := MaxLog(events, block);
    maxLog.Some? && maxLog.value < index <= maxLog.value + CountAt(over, block)
  }

  /** A record of the block has the index, be it an event or a copy. */
  predicate Used(events: seq<Event>, over: seq<Event>, block: int, index: int) {
    CopyIndex(events, over, block, index) || exists e :: e in events && At(e, block, index)
  }

  /** A copy runs past the keys of its block, into the key of a record q blocks later. */
  predicate RunsInto(events: seq<Event>, over: seq<Event>, block: int, q: int, index: int) {
    && q >= 1 && CopyIndex(events, over, block, index)
    && Used(events, over, block + q, index - q * PRIMARY_KEY_MULTIPLIER)
  }

  ghost predicate SomeRunsInto(events: seq<Event>, over: seq<Event>) {
    exists block, q, index :: RunsInto(events, over, block, q, index)
  }

  /** Log indexes of events are those of their block's keys. */
  ghost predicate IndexesFit(events: seq<Event>) {
    forall e :: e in events ==> 0 <= e.transfer.logIndex < PRIMARY_KEY_MULTIPLIER
  }

  function AllKeyed(events: seq<Event>, over: seq<Event>): seq<Event> {
    MapSeq(events, WithKey) + Keyed(over, events)
  }

  /** Record k has the key of its place, and its place is used. */
  lemma RecordAt(events: seq<Event>, over: seq<Event>, k: nat)
    requires IndexesFit(events) && CopiesOf(over, events) && k < |events| + |over|
    ensures var (block, index) := (BlockAt(events, over, k), IndexOf(events, over, k));
            && AllKeyed(events, over)[k].primaryKey == Some(KeyOfPlace(block, index))
            && index >= 0 && Used(events, over, block, index)
            && (index >= PRIMARY_KEY_MULTIPLIER ==> CopyIndex(events, over, block, index))
  {
    if k < |events| {
      assert events[k] in events && At(events[k], events[k].transfer.blockNumber, events[k].transfer.logIndex);
    } else {
      OverIndexBounds(events, over, k - |events|);
    }
  }

  /** The copy of a block before which n have been counted. */
  lemma {:induction false} CopyAt(over: seq<Event>, block: int, n: nat) returns (j: nat)
    requires n < CountAt(over, block)
    ensures j < |over| && over[j].transfer.blockNumber == block && CountAt(over[..j], block) == n
  {
    j := |over| - 1;
    var init := over[..j];
    if over[j].transfer.blockNumber != block || CountAt(init, block) != n {
      j := CopyAt(init, block, n);
      assert over[..j] == init[..j];
    }
  }

  /** Every used place is that of a record. */
  lemma UsedByRecord(events: seq<Event>, over: seq<Event>, block: int, index: int) returns (k: nat)
    requires Used(events, over, block, index)
    ensures k < |events| + |over| && BlockAt(events, over, k) == block && IndexOf(events, over, k) == index
  {
    if CopyIndex(events, over, block, index) {
      var j := CopyAt(over, block, index - MaxLog(events, block).value - 1);
      k := |events| + j;
    } else {
      var e :| e in events && At(e, block, index);
      k :| 0 <= k < |events| && events[k] == e;
    }
  }

  lemma SameKey(b: int, i: int, q: int)
    ensures KeyOfPlace(b + q, i - q * PRIMARY_KEY_MULTIPLIER) == KeyOfPlace(b, i)
  {
  }

  lemma RunningIntoClashes(events: seq<Event>, over: seq<Event>, block: int, q: int, index: int)
    requires IndexesFit(events) && CopiesOf(over, events) && RunsInto(events, over, block, q, index)
    ensures !DistinctKeys(AllKeyed(events, over))
  {
    var k := UsedByRecord(events, over, block, index);
    var l := UsedByRecord(events, over, block + q, index - q * PRIMARY_KEY_MULTIPLIER);
    RecordAt(events, over, k);
    RecordAt(events, over, l);
    SameKey(block, index, q);
    assert AllKeyed(events, over)[k].primaryKey == AllKeyed(events, over)[l].primaryKey && k != l;
  }

  /** Two places in order of their blocks that have one key. */
  lemma ClashRunsInto(events: seq<Event>, over: seq<Event>, k: nat, l: nat)
    requires IndexesFit(events) && CopiesOf(over, events) && k < |events| + |over| && l < |events| + |over|
    requires AllKeyed(events, over)[k].primaryKey == AllKeyed(events, over)[l].primaryKey
    requires BlockAt(events, over, k) < BlockAt(events, over, l)
    ensures SomeRunsInto(events, over)
  {
    RecordAt(events, over, k);
    RecordAt(events, over, l);
    var (block, index) := (BlockAt(events, over, k), IndexOf(events, over, k));
    var q := BlockAt(events, over, l) - block;
    assert IndexOf(events, over, l) == index - q * PRIMARY_KEY_MULTIPLIER;
    assert RunsInto(events, over, block, q, index);
  }

  /** Events and copies get different keys exactly when no copy runs into the key of a later block's record. */
  lemma KeysDistinctIff(events: seq<Event>, over: seq<Event>)
    requires IndexesFit(events) && CopiesOf(over, events) && DistinctPlaces(events)
    ensures DistinctKeys(AllKeyed(events, over)) <==> !SomeRunsInto(events, over)
  {
    if block, q, index :| RunsInto(events, over, block, q, index) {
      RunningIntoClashes(events, over, block, q, index);
    } else {
      var all := AllKeyed(events, over);
      forall k, l | 0 <= k < l < |all| ensures all[k].primaryKey != all[l].primaryKey {
        if all[k].primaryKey == all[l].primaryKey {
          SomeClash(events, over, k, l);
        }
      }
    }
  }

  lemma SomeClash(events: seq<Event>, over: seq<Event>, k: nat, l: nat)
    requires IndexesFit(events) && CopiesOf(over, events) && DistinctPlaces(events) && k < l < |events| + |over|
    requires AllKeyed(events, over)[k].primaryKey == AllKeyed(events, over)[l].primaryKey
    ensures SomeRunsInto(events, over)
  {
    RecordAt(events, over, k);
    RecordAt(events, over, l);
    PlacesDiffer(events, over, k, l);
    if BlockAt(events, over, k) < BlockAt(events, over, l) {
      ClashRunsInto(events, over, k, l);
    } else {
      ClashRunsInto(events, over, l, k);
    }
  }

  // ----- The records of an interval -----

  /** Logs have distinct indexes within their block, and below the multiplier of the keys. */
  ghost predicate Regular(node: Node) {
    && OneBlockPerTransaction(node) && LogsOfTheirBlock(node) && DistinctLogIndexes(node)
    && forall b, e :: e in node.logs(b) ==> 0 <= e.logIndex < PRIMARY_KEY_MULTIPLIER
  }

  function Copies(s: Settings, node: Node, lo: int, hi: int): seq<Event>
    requires ValidSettings(s) && EventsFor(s, node, lo, hi).Ok?
  {
    Extracted(EventsFor(s, node, lo, hi).value, Appended(s), s.rescale)
  }

  lemma RegularIndexes(s: Settings, node: Node, lo: int, hi: int)
    requires ValidSettings(s) && s.mode.ExtractAllAppend? && Regular(node) && EventsFor(s, node, lo, hi).Ok?
    ensures IndexesFit(EventsFor(s, node, lo, hi).value)
  {
    var events := EventsFor(s, node, lo, hi).value;
    PlainFetch(node, None, s.custom, lo, hi, s.concurrency);
    forall e | e in events ensures 0 <= e.transfer.logIndex < PRIMARY_KEY_MULTIPLIER {
      var i :| 0 <= i < |events| && events[i] == e;
      var log := TransferFrom(node, None, lo, hi, e.transfer);
    }
  }

  /** With appended copies, records have keys of their own exactly when no copy runs into the key of a later record. */
  lemma RecordsHaveOwnKeysIff(s: Settings, node: Node, lo: int, hi: int)
    requires ValidSettings(s) && s.mode.ExtractAllAppend? && Regular(node) && EventsFor(s, node, lo, hi).Ok?
    ensures DistinctKeys(RangeRecords(s, node, lo, hi)) <==>
            !SomeRunsInto(EventsFor(s, node, lo, hi).value, Copies(s, node, lo, hi))
  {
    var events := EventsFor(s, node, lo, hi).value;
    var over := Copies(s, node, lo, hi);
    PlacesAreDistinct(s, node, lo, hi);
    RegularIndexes(s, node, lo, hi);
    ExtractedAreCopies(events, Appended(s), s.rescale);
    KeysDistinctIff(events, over);
    BatchIsComplete(events, Appended(s), s.rescale);
    var all, records := AllKeyed(events, over), RangeRecords(s, node, lo, hi);
    if DistinctKeys(all) {
      DistinctKeysPermuted(all, records);
    }
    if DistinctKeys(records) {
      DistinctKeysPermuted(records, all);
    }
  }

  // ----- The settings -----

  /** On every regular node, the records of every interval have keys of their own. */
  ghost predicate AppendedKeysIdentify(s: Settings)
    requires ValidSettings(s)
  {
    forall node, lo, hi :: Regular(node) && EventsFor(s, node, lo, hi).Ok?
        ==> DistinctKeys(RangeRecords(s, node, lo, hi))
  }

  /** The address of a contract as transfers carry it, in lower case, is among the old ones. */
  predicate CanMatch(overwrites: seq<ContractOverwrite>) {
    exists a :: a in AllOldContracts(overwrites) && Lower(a) == a
  }

  lemma OverwrittenIff(overwrites: seq<ContractOverwrite>, e: Event)
    ensures Overwritten(overwrites, e) <==> e.transfer.contract in AllOldContracts(overwrites)
  {
    FlattenMember(MapSeq(overwrites, (o: ContractOverwrite) => o.oldAddresses), e.transfer.contract);
  }

  lemma LowerTwice(a: string)
    ensures Lower(Lower(a)) == Lower(a)
  {
  }

  /** A decoded transfer carries its contract in lower case. */
  lemma DecodedContract(events: seq<RawEvent>, t: Transfer)
    requires t in DecodedAll(events)
    ensures Lower(t.contract) == t.contract
  {
    FlattenMember(MapSeq(events, DecodedOne), t);
    var i :| 0 <= i < |events| && t in MapSeq(events, DecodedOne)[i];
    DecodedPlace(events[i], t);
    LowerTwice(events[i].address);
  }

  lemma EventContract(s: Settings, node: Node, lo: int, hi: int, e: Event)
    requires ValidSettings(s) && s.mode.ExtractAllAppend? && Regular(node) && EventsFor(s, node, lo, hi).Ok?
    requires e in EventsFor(s, node, lo, hi).value
    ensures Lower(e.transfer.contract) == e.transfer.contract
  {
    var events := EventsFor(s, node, lo, hi).value;
    PlainFetch(node, None, s.custom, lo, hi, s.concurrency);
    var i :| 0 <= i < |events| && events[i] == e;
    FilteredHasHashes(DecodedAll(BlockLogs(node, None, lo, hi)), e.transfer);
    DecodedContract(BlockLogs(node, None, lo, hi), e.transfer);
  }

  lemma NothingMatches(s: Settings, node: Node, lo: int, hi: int)
    requires ValidSettings(s) && s.mode.ExtractAllAppend? && !CanMatch(s.overwrites)
    requires Regular(node) && EventsFor(s, node, lo, hi).Ok?
    ensures DistinctKeys(RangeRecords(s, node, lo, hi))
  {
    var events := EventsFor(s, node, lo, hi).value;
    forall e | e in events ensures !IsOverwritten(s.overwrites)(e) {
      OverwrittenIff(s.overwrites, e);
      EventContract(s, node, lo, hi, e);
    }
    FilterNone(events, IsOverwritten(s.overwrites));
    assert Copies(s, node, lo, hi) == [];
    assert forall block, index :: !CopyIndex(events, [], block, index);
    RecordsHaveOwnKeysIff(s, node, lo, hi);
  }

  /** Block 0 ends with a log of the contract at the greatest index, and block 1 begins with one. */
  function LastLog(address: string): RawEvent {
    OnlyLog(address, 0, PRIMARY_KEY_MULTIPLIER - 1)
  }

  function FirstLog(address: string): RawEvent {
    OnlyLog(address, 1, 0).(transactionHash := 2)
  }

  function TwoLogNode(address: string): Node {
    Node(b => if b == 0 then [LastLog(address)] else if b == 1 then [FirstLog(address)] else [],
         (a, b) => Answers, b => None, (a, b) => Some(Range(a, b)))
  }

  lemma TwoLogsAre(address: string, b: int, e: RawEvent)
    requires e in TwoLogNode(address).logs(b)
    ensures (b == 0 && e == LastLog(address)) || (b == 1 && e == FirstLog(address))
  {
  }

  lemma TwoLogsAreRegular(address: string)
    ensures Regular(TwoLogNode(address)) && Willing(TwoLogNode(address))
  {
    var node := TwoLogNode(address);
    forall b, e | e in node.logs(b)
      ensures (b == 0 && e == LastLog(address)) || (b == 1 && e == FirstLog(address))
    {
      TwoLogsAre(address, b, e);
    }
    forall b ensures DistinctBy(node.logs(b), LogIndexOf) {
      assert |node.logs(b)| <= 1;
    }
  }

  /** Each of the two blocks exports its one transfer. */
  lemma TwoLogEvents(s: Settings, address: string, log: RawEvent)
    requires ValidSettings(s) && s.mode.ExtractAllAppend? && Lower(address) == address
    requires log == LastLog(address) || log == FirstLog(address)
    ensures var events := BlockEvents(s, TwoLogNode(address), log.blockNumber);
            |events| == 1 && EventPlace(events[0]) == LogPlace(log) && events[0].transfer.contract == address
  {
    OneLogFetched(TwoLogNode(address), log, None);
    UnaskedIsPlain(TwoLogNode(address), None, s.custom, log.blockNumber);
  }

  /** Of an interval's events, those of the two blocks. */
  lemma TwoLogBlocks(s: Settings, address: string)
    requires ValidSettings(s) && s.mode.ExtractAllAppend? && Lower(address) == address
    ensures var node := TwoLogNode(address);
            && EventsFor(s, node, 0, 1).Ok?
            && OfBlock(EventsFor(s, node, 0, 1).value, 0) == BlockEvents(s, node, 0)
            && OfBlock(EventsFor(s, node, 0, 1).value, 1) == BlockEvents(s, node, 1)
  {
    TwoLogsAreRegular(address);
    WillingAnswers(s, TwoLogNode(address), 0, 1);
    EventsForOfBlock(s, TwoLogNode(address), 0, 1, 0);
    EventsForOfBlock(s, TwoLogNode(address), 0, 1, 1);
  }

  lemma CountOne(over: seq<Event>, block: int, c: Event)
    requires OfBlock(over, block) == [c] && c.transfer.blockNumber == block
    ensures CountAt(over, block) == 1
  {
    CountAtOfBlock(over, block);
    assert [c][..0] == [];
  }

  lemma MaxLogOne(events: seq<Event>, block: int, e: Event)
    requires OfBlock(events, block) == [e] && e.transfer.blockNumber == block
    ensures MaxLog(events, block) == Some(e.transfer.logIndex)
  {
    MaxLogOfBlock(events, block);
    assert [e][..0] == [];
  }

  lemma ExtractedOne(e: Event, overwrites: seq<ContractOverwrite>, rescale: Rescale)
    requires Overwritten(overwrites, e)
    ensures Extracted([e], overwrites, rescale) == [ChangesTo(overwrites, rescale)(e)]
  {
    FilterAll([e], IsOverwritten(overwrites));
  }

  lemma OneCopy(s: Settings, events: seq<Event>, block: int, e: Event)
    requires ValidSettings(s) && OfBlock(events, block) == [e] && e.transfer.blockNumber == block
    requires e.transfer.contract in AllOldContracts(s.overwrites)
    ensures CountAt(Extracted(events, s.overwrites, s.rescale), block) == 1
    ensures MaxLog(events, block) == Some(e.transfer.logIndex)
  {
    OverwrittenIff(s.overwrites, e);
    ExtractedOfBlock(events, s.overwrites, s.rescale, block);
    ExtractedOne(e, s.overwrites, s.rescale);
    ChangesKeepBlock(s.overwrites, s.rescale, e);
    CountOne(Extracted(events, s.overwrites, s.rescale), block, ChangesTo(s.overwrites, s.rescale)(e));
    MaxLogOne(events, block, e);
  }

  /** The copy of the last log of block 0 takes the key of the first log of block 1. */
  lemma CopyTakesNextKey(s: Settings, address: string)
    requires ValidSettings(s) && s.mode.ExtractAllAppend? && Lower(address) == address
    requires address in AllOldContracts(s.overwrites)
    ensures !AppendedKeysIdentify(s)
  {
    var node := TwoLogNode(address);
    TwoLogsAreRegular(address);
    TwoLogBlocks(s, address);
    TwoLogEvents(s, address, LastLog(address));
    TwoLogEvents(s, address, FirstLog(address));
    var events, over := EventsFor(s, node, 0, 1).value, Copies(s, node, 0, 1);
    var e, f := BlockEvents(s, node, 0)[0], BlockEvents(s, node, 1)[0];
    OneCopy(s, events, 0, e);
    FilterMember(events, InBlock(1), f);
    assert CopyIndex(events, over, 0, PRIMARY_KEY_MULTIPLIER);
    assert f in events && At(f, 1, 0);
    assert RunsInto(events, over, 0, 1, PRIMARY_KEY_MULTIPLIER);
    RecordsHaveOwnKeysIff(s, node, 0, 1);
  }

  /** With appended copies, records have keys of their own on every regular node exactly when nothing can be copied. */
  lemma AppendedKeysIdentifyIff(s: Settings)
    requires ValidSettings(s) && s.mode.ExtractAllAppend?
    ensures AppendedKeysIdentify(s) <==> !CanMatch(s.overwrites)
  {
    if a :| a in AllOldContracts(s.overwrites) && Lower(a) == a {
      CopyTakesNextKey(s, a);
    } else {
      forall node, lo, hi | Regular(node) && EventsFor(s, node, lo, hi).Ok?
        ensures DistinctKeys(RangeRecords(s, node, lo, hi))
      {
        NothingMatches(s, node, lo, hi);
      }
    }
  }
}

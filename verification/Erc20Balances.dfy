/** The balances in the records of the ERC20 worker: they change nothing else, and are those of the chain. */
module Erc20Balances {
  import opened Common
  import opened Chunks
  import opened FetchEvents
  import opened StableSorting
  import opened ContractOverwrites
  import opened EventKeys
  import opened EventBatches
  import opened MulticallBlacklists
  import opened Balancing
  import opened Erc20Workers
  import A = AddBalances
  import N = Enrichment

  /** The event without its balances. */
  function Bare(e: Event): Event {
    e.(sides := NO_SIDES)
  }

  function AllBare(events: seq<Event>): (r: seq<Event>)
    ensures |r| == |events|
  {
    MapSeq(events, Bare)
  }

  // ----- Balances do not change what is exported, nor under which keys -----

  ghost predicate Preserves<T(!new)>(cmp: Comparator<T>, f: T -> T) {
    forall a, b :: cmp(f(a), f(b)) == cmp(a, b)
  }

  lemma {:induction false} InsertMapped<T(!new)>(t: seq<T>, x: T, cmp: Comparator<T>, f: T -> T)
    requires Preserves(cmp, f)
    ensures MapSeq(Insert(t, x, cmp), f) == Insert(MapSeq(t, f), f(x), cmp)
  {
    if t != [] {
      var init, last := t[..|t| - 1], t[|t| - 1];
      assert cmp(f(last), f(x)) == cmp(last, x);
      assert MapSeq(t, f)[..|t| - 1] == MapSeq(init, f);
      if cmp(last, x) > 0 {
        InsertMapped(init, x, cmp, f);
        MapSnoc(Insert(init, x, cmp), last, f);
      } else {
        MapSnoc(t, x, f);
      }
    } else {
      MapSnoc(t, x, f);
    }
  }

  lemma {:induction false} SortMapped<T(!new)>(s: seq<T>, cmp: Comparator<T>, f: T -> T)
    requires Preserves(cmp, f)
    ensures MapSeq(StableSorted(s, cmp), f) == StableSorted(MapSeq(s, f), cmp)
  {
    if s != [] {
      var init, last := s[..|s| - 1], s[|s| - 1];
      SortMapped(init, cmp, f);
      InsertMapped(StableSorted(init, cmp), last, cmp, f);
      assert MapSeq(s, f)[..|s| - 1] == MapSeq(init, f);
    }
  }

  lemma {:induction false} ChangedBare(overwrites: seq<ContractOverwrite>, rescale: Rescale, e: Event)
    requires AllComplete(overwrites)
    ensures Changed(overwrites, rescale, Bare(e)) == Bare(Changed(overwrites, rescale, e))
  {
    if overwrites != [] && !Match(overwrites[0], e) {
      ChangedBare(overwrites[1..], rescale, e);
    }
  }

  lemma ChangesToBare(overwrites: seq<ContractOverwrite>, rescale: Rescale, e: Event)
    ensures ChangesTo(overwrites, rescale)(Bare(e)) == Bare(ChangesTo(overwrites, rescale)(e))
  {
    if AllComplete(overwrites) {
      ChangedBare(overwrites, rescale, e);
    }
  }

  lemma {:induction false} FilterBare(events: seq<Event>, overwrites: seq<ContractOverwrite>)
    ensures Filter(AllBare(events), IsOverwritten(overwrites)) == AllBare(Filter(events, IsOverwritten(overwrites)))
  {
    forall e | e in events ensures IsOverwritten(overwrites)(Bare(e)) == IsOverwritten(overwrites)(e) {
      assert forall i :: 0 <= i < |overwrites| ==> (Match(overwrites[i], Bare(e)) <==> Match(overwrites[i], e));
    }
    FilterMapSeq(events, Bare, IsOverwritten(overwrites));
  }

  lemma ExtractedBare(events: seq<Event>, overwrites: seq<ContractOverwrite>, rescale: Rescale)
    ensures Extracted(AllBare(events), overwrites, rescale) == AllBare(Extracted(events, overwrites, rescale))
  {
    var matching := Filter(events, IsOverwritten(overwrites));
    FilterBare(events, overwrites);
    forall i | 0 <= i < |matching|
      ensures ChangesTo(overwrites, rescale)(Bare(matching[i])) == Bare(ChangesTo(overwrites, rescale)(matching[i]))
    {
      ChangesToBare(overwrites, rescale, matching[i]);
    }
  }

  lemma {:induction false} MaxLogBare(events: seq<Event>, block: int)
    ensures MaxLog(AllBare(events), block) == MaxLog(events, block)
  {
    if events != [] {
      MaxLogBare(events[..|events| - 1], block);
      assert AllBare(events)[..|events| - 1] == AllBare(events[..|events| - 1]);
    }
  }

  lemma {:induction false} CountAtBare(over: seq<Event>, block: int)
    ensures CountAt(AllBare(over), block) == CountAt(over, block)
  {
    if over != [] {
      CountAtBare(over[..|over| - 1], block);
      assert AllBare(over)[..|over| - 1] == AllBare(over[..|over| - 1]);
    }
  }

  lemma KeyedBare(over: seq<Event>, events: seq<Event>)
    ensures Keyed(AllBare(over), AllBare(events)) == AllBare(Keyed(over, events))
  {
    forall j | 0 <= j < |over| ensures OverKey(AllBare(events), AllBare(over), j) == OverKey(events, over, j) {
      MaxLogBare(events, over[j].transfer.blockNumber);
      CountAtBare(over[..j], over[j].transfer.blockNumber);
      assert AllBare(over)[..j] == AllBare(over[..j]);
    }
  }

  lemma KeyedEventsBare(events: seq<Event>)
    ensures KeyedEvents(AllBare(events)) == AllBare(KeyedEvents(events))
  {
    SortMapped(events, TransactionOrder, Bare);
    var sorted := StableSorted(events, TransactionOrder);
    assert forall i :: 0 <= i < |sorted| ==> WithKey(Bare(sorted[i])) == Bare(WithKey(sorted[i]));
  }

  /** A batch without its balances is the batch of the events without theirs. */
  lemma BatchBare(events: seq<Event>, overwrites: seq<ContractOverwrite>, rescale: Rescale)
    ensures AllBare(ExportBatch(events, overwrites, rescale)) == ExportBatch(AllBare(events), overwrites, rescale)
  {
    var over := Extracted(events, overwrites, rescale);
    var keyed, copies := KeyedEvents(events), Keyed(over, events);
    KeyedEventsBare(events);
    ExtractedBare(events, overwrites, rescale);
    KeyedBare(over, events);
    assert AllBare(keyed + copies) == AllBare(keyed) + AllBare(copies);
    SortMapped(keyed + copies, PrimaryKeyOrder, Bare);
  }

  lemma WithSidesBare(transfers: seq<Transfer>, fill: Fill)
    ensures AllBare(MapSeq(transfers, WithSides(fill))) == MapSeq(transfers, Unkeyed)
  {
  }

  lemma ChangedListBare(s: Settings, transfers: seq<Transfer>, fill: Fill)
    ensures AllBare(MapSeq(MapSeq(transfers, WithSides(fill)), ChangesTo(s.overwrites, s.rescale)))
         == MapSeq(MapSeq(transfers, Unkeyed), ChangesTo(s.overwrites, s.rescale))
  {
    forall i | 0 <= i < |transfers|
      ensures Bare(ChangesTo(s.overwrites, s.rescale)(WithSides(fill)(transfers[i])))
           == ChangesTo(s.overwrites, s.rescale)(Unkeyed(transfers[i]))
    {
      ChangesToBare(s.overwrites, s.rescale, WithSides(fill)(transfers[i]));
    }
  }

  /** The events of both lists without balances. */
  function Plain(s: Settings, lists: (seq<Transfer>, seq<Transfer>)): seq<Event> {
    MapSeq(MapSeq(lists.0, Unkeyed), ChangesTo(s.overwrites, s.rescale)) + MapSeq(lists.1, Unkeyed)
  }

  lemma BareAppend(a: seq<Event>, b: seq<Event>)
    ensures AllBare(a + b) == AllBare(a) + AllBare(b)
  {
  }

  lemma ListsBare(s: Settings, lists: (seq<Transfer>, seq<Transfer>), fills: (Fill, Fill))
    ensures AllBare(EventsOf(s, lists, fills)) == Plain(s, lists)
  {
    ChangedListBare(s, lists.0, fills.0);
    WithSidesBare(lists.1, fills.1);
    BareAppend(MapSeq(MapSeq(lists.0, WithSides(fills.0)), ChangesTo(s.overwrites, s.rescale)),
               MapSeq(lists.1, WithSides(fills.1)));
  }

  lemma NothingBefore(s: Settings, transfers: seq<Transfer>)
    ensures Plain(s, ([], transfers)) == MapSeq(transfers, Unkeyed)
  {
  }

  lemma EventsBare(s: Settings, node: Node, lo: int, hi: int)
    requires ValidSettings(s) && Lists(s, node, lo, hi).Ok?
    ensures EventsFor(s, node, lo, hi) == Ok(Plain(s, Lists(s, node, lo, hi).value))
  {
    if !s.mode.ExtractExactOverwrite? {
      NothingBefore(s, Lists(s, node, lo, hi).value.1);
    }
  }

  lemma {:induction false} MaxKeyBare(events: seq<Event>)
    ensures MaxKey(AllBare(events)) == MaxKey(events)
  {
    if events != [] {
      MaxKeyBare(events[..|events| - 1]);
      assert AllBare(events)[..|events| - 1] == AllBare(events[..|events| - 1]);
    }
  }

  /** The records of a call are, but for their balances, those of the interval, and so is the key it remembers. */
  lemma RecordsButForBalances(s: Settings, node: Node, interval: Chunk, failures: Option<Failures>, moves: seq<A.Move>,
                              records: seq<Event>, keyBefore: int, keyAfter: int)
    requires ValidSettings(s) && Scheduled(s, node, Some(interval), failures, moves)
    requires Exports(s, node, interval, failures, moves, records, keyBefore, keyAfter)
    ensures EventsFor(s, node, interval.0, interval.1).Ok?
    ensures AllBare(records) == RangeRecords(s, node, interval.0, interval.1)
    ensures var events := EventsFor(s, node, interval.0, interval.1).value;
            keyAfter == if events == [] then keyBefore else MaxKey(KeyedEvents(events))
  {
    var fills := FillsFor(s, node, interval, failures, moves).value;
    var events := EventsOf(s, Lists(s, node, interval.0, interval.1).value, fills);
    EventsBare(s, node, interval.0, interval.1);
    ListsBare(s, Lists(s, node, interval.0, interval.1).value, fills);
    BatchBare(events, Appended(s), s.rescale);
    KeyedEventsBare(events);
    MaxKeyBare(KeyedEvents(events));
  }

  // ----- The balances of a record -----

  /** The record is made from the event: its key, contract and amount may differ. */
  predicate MadeFrom(x: Event, e: Event) {
    x.sides == e.sides && MovementOf(x.transfer) == MovementOf(e.transfer).(contract := x.transfer.contract)
  }

  lemma ChangedMade(s: Settings, e: Event)
    ensures MadeFrom(ChangesTo(s.overwrites, s.rescale)(e), e)
  {
    if AllComplete(s.overwrites) {
      ChangedKeepsPlace(s.overwrites, s.rescale, e);
    }
  }

  lemma RecordMade(s: Settings, events: seq<Event>, x: Event) returns (e: Event)
    requires ValidSettings(s) && x in ExportBatch(events, Appended(s), s.rescale)
    ensures e in events && MadeFrom(x, e)
  {
    var over := Extracted(events, Appended(s), s.rescale);
    var all := MapSeq(events, WithKey) + Keyed(over, events);
    BatchIsComplete(events, Appended(s), s.rescale);
    SameElements(ExportBatch(events, Appended(s), s.rescale), all, x);
    var k :| 0 <= k < |all| && all[k] == x;
    if k < |events| {
      e := events[k];
    } else {
      e := CopyMade(s, events, over[k - |events|]);
    }
  }

  lemma CopyMade(s: Settings, events: seq<Event>, c: Event) returns (e: Event)
    requires c in Extracted(events, Appended(s), s.rescale)
    ensures e in events && MadeFrom(c, e)
  {
    var matching := Filter(events, IsOverwritten(Appended(s)));
    var i :| 0 <= i < |matching| && c == ChangesTo(Appended(s), s.rescale)(matching[i]);
    e := matching[i];
    FilterMember(events, IsOverwritten(Appended(s)), e);
    ChangedMade(s.(overwrites := Appended(s)), e);
  }

  /** The record is that of one of the transfers, and has the balances that the fill gives it. */
  ghost predicate FilledFrom(x: Event, transfers: seq<Transfer>, fill: Fill) {
    exists t :: t in transfers && x.sides == fill(t)
                && MovementOf(x.transfer) == MovementOf(t).(contract := x.transfer.contract)
  }

  lemma EventFilled(s: Settings, lists: (seq<Transfer>, seq<Transfer>), fills: (Fill, Fill), e: Event)
    requires e in EventsOf(s, lists, fills)
    ensures FilledFrom(e, lists.0, fills.0) || FilledFrom(e, lists.1, fills.1)
  {
    var olds := MapSeq(MapSeq(lists.0, WithSides(fills.0)), ChangesTo(s.overwrites, s.rescale));
    var i :| 0 <= i < |EventsOf(s, lists, fills)| && EventsOf(s, lists, fills)[i] == e;
    if i < |olds| {
      ChangedMade(s, WithSides(fills.0)(lists.0[i]));
      assert lists.0[i] in lists.0;
    } else {
      assert lists.1[i - |olds|] in lists.1;
    }
  }

  /** The balances of a record are those of the chain, or failures, for the eligible parties of a fetched transfer. */
  ghost predicate CarriesBalances(chain: A.Chain, s: Settings, lists: (seq<Transfer>, seq<Transfer>), x: Event) {
    exists t :: (t in lists.0 || t in lists.1)
                && MovementOf(x.transfer) == MovementOf(t).(contract := x.transfer.contract)
                && N.SidesOk(chain, s.checksum, MovementOf(t), NO_SIDES, x.sides)
  }

  lemma FilledCarries(chain: A.Chain, s: Settings, lists: (seq<Transfer>, seq<Transfer>), transfers: seq<Transfer>,
                      fill: Fill, x: Event)
    requires FilledFrom(x, transfers, fill) && FillsRightly(chain, BalancerOf(s), transfers, fill)
    requires transfers == lists.0 || transfers == lists.1
    ensures CarriesBalances(chain, s, lists, x)
  {
    var t :| t in transfers && x.sides == fill(t)
             && MovementOf(x.transfer) == MovementOf(t).(contract := x.transfer.contract);
    assert t in lists.0 || t in lists.1;
  }

  lemma MadeIsFilled(x: Event, e: Event, transfers: seq<Transfer>, fill: Fill)
    requires MadeFrom(x, e) && FilledFrom(e, transfers, fill)
    ensures FilledFrom(x, transfers, fill)
  {
  }

  /**
   * When balances are asked for, whatever the order of requests and answers: every record of a call that does not
   * fail carries, for each eligible party of the transfer it is made from, what the chain says or a failure.
   */
  lemma RecordsCarryBalances(chain: A.Chain, s: Settings, node: Node, interval: Chunk, failures: Option<Failures>,
                             moves: seq<A.Move>, records: seq<Event>, keyBefore: int, keyAfter: int, x: Event)
    requires ValidSettings(s) && Scheduled(s, node, Some(interval), failures, moves)
    requires Exports(s, node, interval, failures, moves, records, keyBefore, keyAfter) && x in records
    requires AsksForBalances(s, interval.0)
    requires var lists := Lists(s, node, interval.0, interval.1).value;
             A.HonestRun(chain, s.failureThreshold, Started(BalancerOf(s), lists.0, lists.1, failures), moves)
    ensures CarriesBalances(chain, s, Lists(s, node, interval.0, interval.1).value, x)
  {
    var lists := Lists(s, node, interval.0, interval.1).value;
    var fills := FillsFor(s, node, interval, failures, moves).value;
    BothFilledRightly(chain, BalancerOf(s), lists.0, lists.1, failures, moves);
    var e := RecordMade(s, EventsOf(s, lists, fills), x);
    EventFilled(s, lists, fills, e);
    if FilledFrom(e, lists.0, fills.0) {
      MadeIsFilled(x, e, lists.0, fills.0);
      FilledCarries(chain, s, lists, lists.0, fills.0, x);
    } else {
      MadeIsFilled(x, e, lists.1, fills.1);
      FilledCarries(chain, s, lists, lists.1, fills.1, x);
    }
  }
}

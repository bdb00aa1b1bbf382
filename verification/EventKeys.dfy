/** The primary keys of transfers and of their overwritten copies: erc20/lib/extend_events_key.ts. */
module EventKeys {
  import opened Common
  import opened StableSorting
  import opened ContractOverwrites

  const PRIMARY_KEY_MULTIPLIER := 10000

  // ----- Comparators -----

  function TransactionOrder(a: Event, b: Event): int {
    if a.transfer.blockNumber != b.transfer.blockNumber then a.transfer.blockNumber - b.transfer.blockNumber
    else if a.transfer.transactionIndex != b.transfer.transactionIndex
    then a.transfer.transactionIndex - b.transfer.transactionIndex
    else a.transfer.logIndex - b.transfer.logIndex
  }

  /** The key of an event; the comparator below is only used once all keys are set. */
  function KeyOf(e: Event): int {
    if e.primaryKey.Some? then e.primaryKey.value else 0
  }

  function PrimaryKeyOrder(a: Event, b: Event): int {
    if TransactionOrder(a, b) != 0 then TransactionOrder(a, b) else KeyOf(a) - KeyOf(b)
  }

  lemma TransactionOrderOrders()
    ensures Ordering(TransactionOrder)
  {
    forall a, b, c ensures Ordered(TransactionOrder, a, b, c) {
    }
  }

  lemma PrimaryKeyOrderOrders()
    ensures Ordering(PrimaryKeyOrder)
  {
    forall a, b, c ensures Ordered(PrimaryKeyOrder, a, b, c) {
    }
  }

  // ----- Keys -----

  function KeyOfPlace(block: int, index: int): int {
    block * PRIMARY_KEY_MULTIPLIER + index
  }

  function WithKey(e: Event): Event {
    e.(primaryKey := Some(KeyOfPlace(e.transfer.blockNumber, e.transfer.logIndex)))
  }

  /** The greatest log index of a block's events. */
  function MaxLog(events: seq<Event>, block: int): Option<int> {
    if events == [] then None
    else
      var before, e := MaxLog(events[..|events| - 1], block), events[|events| - 1].transfer;
      if e.blockNumber != block then before
      else if before.None? || e.logIndex > before.value then Some(e.logIndex)
      else before
  }

  function CountAt(events: seq<Event>, block: int): nat {
    if events == [] then 0
    else CountAt(events[..|events| - 1], block)
         + if events[|events| - 1].transfer.blockNumber == block then 1 else 0
  }

  /** The index the k-th overwritten event of a block gets. */
  function OverIndex(maxLog: Option<int>, k: nat): int {
    if maxLog.None? then k else maxLog.value + 1 + k
  }

  function OverKey(events: seq<Event>, over: seq<Event>, j: nat): int
    requires j < |over|
  {
    var block := over[j].transfer.blockNumber;
    KeyOfPlace(block, OverIndex(MaxLog(events, block), CountAt(over[..j], block)))
  }

  function Keyed(over: seq<Event>, events: seq<Event>): (r: seq<Event>)
    ensures |r| == |over|
  {
    seq(|over|, j requires 0 <= j < |over| => over[j].(primaryKey := Some(OverKey(events, over, j))))
  }

  predicate IsPrimaryKeyOverflow(maxLogIndex: int, overwrittenCount: int, multiplier: int) {
    maxLogIndex + overwrittenCount >= multiplier
  }

  predicate Overflows(events: seq<Event>, over: seq<Event>, block: int) {
    MaxLog(events, block).Some?
    && IsPrimaryKeyOverflow(MaxLog(events, block).value, CountAt(over, block), PRIMARY_KEY_MULTIPLIER)
  }

  // ----- Facts about the greatest index and the counts -----

  predicate At(e: Event, block: int, index: int) {
    e.transfer.blockNumber == block && e.transfer.logIndex == index
  }

  lemma {:induction false} MaxLogIsGreatest(events: seq<Event>, block: int)
    ensures MaxLog(events, block).None? <==> forall e :: e in events ==> e.transfer.blockNumber != block
    ensures forall e :: e in events && e.transfer.blockNumber == block ==>
              e.transfer.logIndex <= MaxLog(events, block).value
    ensures MaxLog(events, block).Some? ==> exists e :: e in events && At(e, block, MaxLog(events, block).value)
  {
    if events != [] {
      var init, last := events[..|events| - 1], events[|events| - 1];
      MaxLogIsGreatest(init, block);
      assert events == init + [last];
      if MaxLog(init, block).Some? {
        var e :| e in init && At(e, block, MaxLog(init, block).value);
        assert e in events;
      }
      if last.transfer.blockNumber == block {
        assert last in events && At(last, block, last.transfer.logIndex);
      }
    }
  }

  /** The greatest index does not depend on the order of the events. */
  lemma MaxLogOfPermutation(a: seq<Event>, b: seq<Event>, block: int)
    requires multiset(a) == multiset(b)
    ensures MaxLog(a, block) == MaxLog(b, block)
  {
    MaxLogIsGreatest(a, block);
    MaxLogIsGreatest(b, block);
    forall e ensures e in a <==> e in b {
      assert e in a <==> e in multiset(a);
      assert e in b <==> e in multiset(b);
    }
  }

  lemma MaxLogStep(events: seq<Event>, i: nat, block: int)
    requires i < |events|
    ensures var e := events[i].transfer;
            var before := MaxLog(events[..i], block);
            MaxLog(events[..i + 1], block) ==
            if e.blockNumber != block then before
            else if before.None? || e.logIndex > before.value then Some(e.logIndex) else before
  {
    assert events[..i + 1][..i] == events[..i];
  }

  lemma CountAtStep(events: seq<Event>, i: nat, block: int)
    requires i < |events|
    ensures CountAt(events[..i + 1], block) ==
            CountAt(events[..i], block) + if events[i].transfer.blockNumber == block then 1 else 0
  {
    assert events[..i + 1][..i] == events[..i];
  }

  // ----- The methods -----

  function Get(m: map<int, int>, block: int): Option<int> {
    if block in m then Some(m[block]) else None
  }

  ghost predicate Counts(m: map<int, int>, over: seq<Event>) {
    forall b :: (if b in m then m[b] else 0) == CountAt(over, b)
  }

  method CountOverwritten(over: array<Event>) returns (counts: map<int, int>)
    ensures Counts(counts, over[..])
  {
    counts := map[];
    for i := 0 to over.Length
      invariant Counts(counts, over[..i])
    {
      var block := over[i].transfer.blockNumber;
      ghost var before := counts;
      counts := counts[block := (if block in counts then counts[block] else 0) + 1];
      assert over[..][..i] == over[..i] && over[..][..i + 1] == over[..i + 1];
      forall b ensures (if b in counts then counts[b] else 0) == CountAt(over[..i + 1], b) {
        CountAtStep(over[..], i, b);
      }
    }
    assert over[..over.Length] == over[..];
  }

  ghost predicate LastLogs(m: map<int, int>, events: seq<Event>) {
    forall b :: Get(m, b) == MaxLog(events, b)
  }

  lemma LastLogsStep(m: map<int, int>, s: seq<Event>, i: nat)
    requires i < |s| && LastLogs(m, s[..i])
    ensures var e := s[i].transfer;
            LastLogs(if e.blockNumber !in m || e.logIndex > m[e.blockNumber] then m[e.blockNumber := e.logIndex] else m,
                     s[..i + 1])
  {
    var e := s[i].transfer;
    var more := if e.blockNumber !in m || e.logIndex > m[e.blockNumber] then m[e.blockNumber := e.logIndex] else m;
    forall b ensures Get(more, b) == MaxLog(s[..i + 1], b) {
      MaxLogStep(s, i, b);
      assert Get(m, b) == MaxLog(s[..i], b);
    }
  }

  method KeyEvents(events: array<Event>) returns (lastLogIndexPerBlock: map<int, int>)
    modifies events
    ensures events[..] == MapSeq(old(events[..]), WithKey)
    ensures LastLogs(lastLogIndexPerBlock, old(events[..]))
  {
    ghost var s := events[..];
    lastLogIndexPerBlock := map[];
    MappedEnds(s, WithKey);
    for i := 0 to events.Length
      invariant events[..] == MappedUpTo(s, WithKey, i)
      invariant LastLogs(lastLogIndexPerBlock, s[..i])
    {
      var e := events[i].transfer;
      assert events[i] == s[i];
      LastLogsStep(lastLogIndexPerBlock, s, i);
      MappedStep(s, WithKey, i);
      events[i] := events[i].(primaryKey := Some(e.blockNumber * PRIMARY_KEY_MULTIPLIER + e.logIndex));
      if e.blockNumber !in lastLogIndexPerBlock || e.logIndex > lastLogIndexPerBlock[e.blockNumber] {
        lastLogIndexPerBlock := lastLogIndexPerBlock[e.blockNumber := e.logIndex];
      }
    }
    assert s[..events.Length] == s;
  }

  /** The last index used in a block once some overwritten events have their keys. */
  ghost predicate UsedIndexes(m: map<int, int>, events: seq<Event>, done: seq<Event>) {
    forall b :: Get(m, b) == if CountAt(done, b) == 0 then MaxLog(events, b)
                             else Some(OverIndex(MaxLog(events, b), CountAt(done, b) - 1))
  }

  lemma UsedIndexesStep(m: map<int, int>, events: seq<Event>, over: seq<Event>, j: nat)
    requires j < |over| && UsedIndexes(m, events, over[..j])
    ensures var block := over[j].transfer.blockNumber;
            var index := if block in m then m[block] + 1 else 0;
            && UsedIndexes(m[block := index], events, over[..j + 1])
            && KeyOfPlace(block, index) == OverKey(events, over, j)
  {
    var block := over[j].transfer.blockNumber;
    var index := if block in m then m[block] + 1 else 0;
    assert Get(m, block) == if CountAt(over[..j], block) == 0 then MaxLog(events, block)
                            else Some(OverIndex(MaxLog(events, block), CountAt(over[..j], block) - 1));
    forall b ensures Get(m[block := index], b) == if CountAt(over[..j + 1], b) == 0 then MaxLog(events, b)
                     else Some(OverIndex(MaxLog(events, b), CountAt(over[..j + 1], b) - 1))
    {
      CountAtStep(over, j, b);
      assert b != block ==> Get(m[block := index], b) == Get(m, b);
    }
  }

  /** The overwritten events when the first j have their keys. */
  ghost function KeyedUpTo(over: seq<Event>, events: seq<Event>, j: nat): (r: seq<Event>)
    requires j <= |over|
    ensures |r| == |over| && forall i :: j <= i < |over| ==> r[i] == over[i]
  {
    Keyed(over, events)[..j] + over[j..]
  }

  lemma KeyedUpToStep(over: seq<Event>, events: seq<Event>, j: nat, key: int)
    requires j < |over| && key == OverKey(events, over, j)
    ensures KeyedUpTo(over, events, j)[j := over[j].(primaryKey := Some(key))] == KeyedUpTo(over, events, j + 1)
  {
  }

  lemma KeyedUpToEnds(over: seq<Event>, events: seq<Event>)
    ensures KeyedUpTo(over, events, 0) == over
    ensures KeyedUpTo(over, events, |over|) == Keyed(over, events)
  {
  }

  method KeyOverwritten(over: array<Event>, lastLog: map<int, int>, ghost events: seq<Event>)
    requires LastLogs(lastLog, events)
    modifies over
    ensures over[..] == Keyed(old(over[..]), events)
  {
    ghost var s := over[..];
    var lastLogIndexPerBlock := lastLog;
    KeyedUpToEnds(s, events);
    for j := 0 to over.Length
      invariant over[..] == KeyedUpTo(s, events, j)
      invariant UsedIndexes(lastLogIndexPerBlock, events, s[..j])
    {
      var block := over[j].transfer.blockNumber;
      assert over[j] == s[j];
      UsedIndexesStep(lastLogIndexPerBlock, events, s, j);
      var index := if block in lastLogIndexPerBlock then lastLogIndexPerBlock[block] + 1 else 0;
      lastLogIndexPerBlock := lastLogIndexPerBlock[block := index];
      KeyedUpToStep(s, events, j, block * PRIMARY_KEY_MULTIPLIER + index);
      over[j] := over[j].(primaryKey := Some(block * PRIMARY_KEY_MULTIPLIER + index));
    }
  }

  ghost predicate OverflowingBlocks(blocks: set<int>, events: seq<Event>, over: seq<Event>) {
    forall b :: b in blocks <==> Overflows(events, over, b)
  }

  /** The blocks for which an overflow is logged. */
  method CheckOverflow(lastLog: map<int, int>, counts: map<int, int>, ghost events: seq<Event>, ghost over: seq<Event>)
    returns (overflowing: set<int>)
    requires LastLogs(lastLog, events) && Counts(counts, over)
    ensures OverflowingBlocks(overflowing, events, over)
  {
    overflowing := set b | b in lastLog
                   && IsPrimaryKeyOverflow(lastLog[b], if b in counts then counts[b] else 0, PRIMARY_KEY_MULTIPLIER);
    forall b ensures b in overflowing <==> Overflows(events, over, b) {
      assert Get(lastLog, b) == MaxLog(events, b);
      assert (if b in counts then counts[b] else 0) == CountAt(over, b);
    }
  }

  lemma LastLogsOfPermutation(m: map<int, int>, a: seq<Event>, b: seq<Event>)
    requires LastLogs(m, a) && multiset(a) == multiset(b)
    ensures LastLogs(m, b)
  {
    forall block ensures Get(m, block) == MaxLog(b, block) {
      MaxLogOfPermutation(a, b, block);
    }
  }

  method ExtendEventsWithPrimaryKey(events: array<Event>, over: array<Event>) returns (overflowing: set<int>)
    requires events != over
    modifies events, over
    ensures events[..] == MapSeq(StableSorted(old(events[..]), TransactionOrder), WithKey)
    ensures over[..] == Keyed(old(over[..]), old(events[..]))
    ensures OverflowingBlocks(overflowing, old(events[..]), old(over[..]))
  {
    ghost var s, o := events[..], over[..];
    TransactionOrderOrders();
    StableSort(events, TransactionOrder);
    StableSortedPermutes(s, TransactionOrder);
    var counts := CountOverwritten(over);
    var lastLog := KeyEvents(events);
    LastLogsOfPermutation(lastLog, StableSorted(s, TransactionOrder), s);
    overflowing := CheckOverflow(lastLog, counts, s, o);
    KeyOverwritten(over, lastLog, s);
  }
}

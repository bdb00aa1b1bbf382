/**
 * Which Kafka partition an event goes to, and the signal records on the others: `simpleHash` of
 * erc20/erc20_worker.ts, `Partitioner` and `sendData` of lib/kafka_storage.ts.
 */
module Partitioning {
  import opened Common

  // ----- The hash, on 32-bit integers -----

  const TWO_32 := 0x1_0000_0000
  const TWO_31 := 0x8000_0000

  /** The 32-bit integer that the bit operators make of a number. */
  function ToInt32(x: int): (r: int)
    ensures -TWO_31 <= r < TWO_31
  {
    (x + TWO_31) % TWO_32 - TWO_31
  }

  function ShiftLeft5(x: int): int {
    ToInt32(x * 32)
  }

  function Abs(x: int): int {
    if x < 0 then -x else x
  }

  /** A UTF-16 code unit. */
  type CodeUnit = c: nat | c < 0x1_0000

  /** The polynomial in base 31 whose coefficients are the code units. */
  function Polynomial(input: seq<CodeUnit>): int {
    if input == [] then 0 else 31 * Polynomial(input[..|input| - 1]) + input[|input| - 1]
  }

  function SimpleHashOf(input: seq<CodeUnit>): (r: int)
    ensures 0 <= r <= TWO_31
  {
    Abs(ToInt32(Polynomial(input)))
  }

  lemma QuotientIsUnique(x: int, k: int, r: int)
    requires x == TWO_32 * k + r && 0 <= r < TWO_32
    ensures x % TWO_32 == r
  {
  }

  /** Numbers that differ by a multiple of 2^32 are the same 32-bit integer. */
  lemma ToInt32Periodic(x: int, k: int)
    ensures ToInt32(x + TWO_32 * k) == ToInt32(x)
  {
    var q, r := (x + TWO_31) / TWO_32, (x + TWO_31) % TWO_32;
    QuotientIsUnique(x + TWO_32 * k + TWO_31, q + k, r);
  }

  lemma ToInt32Differs(x: int) returns (k: int)
    ensures ToInt32(x) == x + TWO_32 * k
  {
    k := -((x + TWO_31) / TWO_32);
  }

  /** Wrapping at every step comes to the same as wrapping once at the end. */
  lemma WrappedStep(a: int, c: int)
    ensures ToInt32(ShiftLeft5(ToInt32(a)) - ToInt32(a) + c) == ToInt32(31 * a + c)
  {
    var h := ToInt32(a);
    var k := ToInt32Differs(a);
    var m := ToInt32Differs(h * 32);
    assert ShiftLeft5(h) - h + c == 31 * a + c + TWO_32 * (31 * k + m);
    ToInt32Periodic(31 * a + c, 31 * k + m);
  }

  method SimpleHash(input: seq<CodeUnit>) returns (r: int)
    ensures r == SimpleHashOf(input)
  {
    var hash := 0;
    if |input| == 0 {
      return hash;
    }
    for i := 0 to |input|
      invariant hash == ToInt32(Polynomial(input[..i]))
    {
      WrappedStep(Polynomial(input[..i]), input[i]);
      assert input[..i + 1][..i] == input[..i];
      hash := ShiftLeft5(hash) - hash + input[i];
      hash := ToInt32(hash);
    }
    assert input[..|input|] == input;
    return Abs(hash);
  }

  // ----- Records in partitions -----

  datatype Event = Event(contract: seq<CodeUnit>, primaryKey: int)

  datatype Payload = Data(event: Event) | Signal

  /** What is produced: a payload under a key. */
  datatype Record = Record(key: Option<int>, payload: Payload)

  type Partitions = seq<seq<Record>>

  function ByContract(e: Event): nat {
    SimpleHashOf(e.contract)
  }

  function Key(keyed: bool, e: Event): Option<int> {
    if keyed then Some(e.primaryKey) else None
  }

  function PartitionOf(hash: Event -> nat, count: nat, e: Event): (p: nat)
    requires count > 0
    ensures p < count
  {
    hash(e) % count
  }

  /** The record that partition p gets for the event. */
  function RecordFor(hash: Event -> nat, count: nat, keyed: bool, p: nat, e: Event): Record
    requires count > 0
  {
    Record(Key(keyed, e), if p == PartitionOf(hash, count, e) then Data(e) else Signal)
  }

  function SignalsFor(hash: Event -> nat, count: nat, keyed: bool, p: nat, events: seq<Event>): (r: seq<Record>)
    requires count > 0
    ensures |r| == |events|
  {
    seq(|events|, k requires 0 <= k < |events| => RecordFor(hash, count, keyed, p, events[k]))
  }

  function DataFor(hash: Event -> nat, count: nat, keyed: bool, p: nat, events: seq<Event>): seq<Record>
    requires count > 0
  {
    if events == [] then []
    else
      var e := events[|events| - 1];
      DataFor(hash, count, keyed, p, events[..|events| - 1])
        + if p == PartitionOf(hash, count, e) then [Record(Key(keyed, e), Data(e))] else []
  }

  /** The partitions after the events are sent. */
  function Sent(parts: Partitions, hash: Event -> nat, keyed: bool, signals: bool, events: seq<Event>): (r: Partitions)
    requires |parts| > 0
    ensures |r| == |parts|
  {
    seq(|parts|, p requires 0 <= p < |parts| =>
      parts[p] + if signals then SignalsFor(hash, |parts|, keyed, p, events)
                 else DataFor(hash, |parts|, keyed, p, events))
  }

  /** Exactly n records have been added behind the others. */
  predicate Grown(before: seq<Record>, after: seq<Record>, n: nat) {
    before <= after && |after| == |before| + n
  }

  predicate Holds(before: seq<Record>, after: seq<Record>, k: nat, payload: Payload) {
    |before| + k < |after| && after[|before| + k].payload == payload
  }

  /** The k-th new record is the event on partition q, and the signal on every other. */
  predicate OnlyOn(q: nat, parts: Partitions, after: Partitions, k: nat, e: Event)
    requires q < |parts| == |after|
  {
    forall p :: 0 <= p < |parts| ==> Holds(parts[p], after[p], k, if p == q then Data(e) else Signal)
  }

  /**
   * With signal records every partition gets as many records as there are events; the k-th is event k on
   * exactly one partition, and the signal on all others.
   */
  lemma EachEventOnOnePartition(parts: Partitions, hash: Event -> nat, keyed: bool, events: seq<Event>, k: nat)
    requires |parts| > 0 && k < |events|
    ensures forall p :: 0 <= p < |parts| ==> Grown(parts[p], Sent(parts, hash, keyed, true, events)[p], |events|)
    ensures exists q :: 0 <= q < |parts| && OnlyOn(q, parts, Sent(parts, hash, keyed, true, events), k, events[k])
  {
    assert OnlyOn(PartitionOf(hash, |parts|, events[k]), parts, Sent(parts, hash, keyed, true, events), k, events[k]);
  }

  /** The record stands for the event: its key is the event's primary key, if keys are asked for. */
  predicate StandsFor(record: Record, keyed: bool, e: Event) {
    && (keyed ==> record.key == Some(e.primaryKey)) && (!keyed ==> record.key == None)
    && (record.payload.Data? ==> record.payload.event == e)
  }

  lemma {:induction false} DataStandsFor(hash: Event -> nat, count: nat, keyed: bool, p: nat, events: seq<Event>,
                                         record: Record) returns (k: nat)
    requires count > 0 && record in DataFor(hash, count, keyed, p, events)
    ensures k < |events| && record.payload.Data? && StandsFor(record, keyed, events[k])
  {
    k := |events| - 1;
    if record in DataFor(hash, count, keyed, p, events[..|events| - 1]) {
      k := DataStandsFor(hash, count, keyed, p, events[..|events| - 1], record);
    }
  }

  /** Every record sent stands for one of the events; with signals the k-th of each partition for event k. */
  lemma RecordsStandForEvents(parts: Partitions, hash: Event -> nat, keyed: bool, signals: bool, events: seq<Event>,
                              p: nat, i: nat)
    requires p < |parts| && |parts[p]| <= i < |Sent(parts, hash, keyed, signals, events)[p]|
    ensures var record := Sent(parts, hash, keyed, signals, events)[p][i];
            if signals then i - |parts[p]| < |events| && StandsFor(record, keyed, events[i - |parts[p]|])
            else exists k :: 0 <= k < |events| && StandsFor(record, keyed, events[k])
  {
    if !signals {
      var k := DataStandsFor(hash, |parts|, keyed, p, events, Sent(parts, hash, keyed, signals, events)[p][i]);
    }
  }

  /** One event after others, on one partition. */
  lemma SentStep(parts: Partitions, hash: Event -> nat, keyed: bool, signals: bool, before: seq<Event>, e: Event,
                 p: nat)
    requires p < |parts|
    ensures Sent(parts, hash, keyed, signals, before + [e])[p] ==
            Sent(parts, hash, keyed, signals, before)[p]
              + if p == PartitionOf(hash, |parts|, e) then [Record(Key(keyed, e), Data(e))]
                else if signals then [Record(Key(keyed, e), Signal)] else []
  {
    var all := before + [e];
    assert all[..|before|] == before;
    if signals {
      assert SignalsFor(hash, |parts|, keyed, p, all)
          == SignalsFor(hash, |parts|, keyed, p, before) + [RecordFor(hash, |parts|, keyed, p, e)];
    } else {
      AppendAssoc(parts[p], DataFor(hash, |parts|, keyed, p, before),
                  if p == PartitionOf(hash, |parts|, e) then [Record(Key(keyed, e), Data(e))] else []);
    }
  }

  /** The events of a contract among the records, in order. */
  function EventsIn(records: seq<Record>, contract: seq<CodeUnit>): seq<Event> {
    if records == [] then []
    else
      var payload := records[|records| - 1].payload;
      EventsIn(records[..|records| - 1], contract)
        + if payload.Data? && payload.event.contract == contract then [payload.event] else []
  }

  function OfContract(events: seq<Event>, contract: seq<CodeUnit>): seq<Event> {
    Filter(events, (e: Event) => e.contract == contract)
  }

  lemma EventsInSnoc(records: seq<Record>, last: Record, contract: seq<CodeUnit>)
    ensures EventsIn(records + [last], contract) == EventsIn(records, contract)
              + if last.payload.Data? && last.payload.event.contract == contract then [last.payload.event] else []
  {
    assert (records + [last])[..|records|] == records;
  }

  /** One record more: the event itself where it belongs, and a signal or nothing elsewhere. */
  lemma EventsInStep(records: seq<Record>, key: Option<int>, e: Event, here: bool, signals: bool,
                     contract: seq<CodeUnit>)
    ensures var more := if here then [Record(key, Data(e))] else if signals then [Record(key, Signal)] else [];
            EventsIn(records + more, contract)
            == EventsIn(records, contract) + if here && e.contract == contract then [e] else []
  {
    if here {
      EventsInSnoc(records, Record(key, Data(e)), contract);
    } else if signals {
      EventsInSnoc(records, Record(key, Signal), contract);
    } else {
      assert records + [] == records;
    }
  }

  /** Events that a hash sends to the same partition are all there, in their order. */
  lemma {:induction false} SamePartitionInOrder(parts: Partitions, hash: Event -> nat, keyed: bool, signals: bool,
                                                events: seq<Event>, contract: seq<CodeUnit>, home: nat, p: nat)
    requires p < |parts| && forall e: Event :: e.contract == contract ==> PartitionOf(hash, |parts|, e) == home
    ensures EventsIn(Sent(parts, hash, keyed, signals, events)[p], contract) == EventsIn(parts[p], contract)
              + if p == home then OfContract(events, contract) else []
  {
    if events == [] {
      SentNothing(parts, hash, keyed, signals);
    } else {
      var init, e := events[..|events| - 1], events[|events| - 1];
      var here := p == PartitionOf(hash, |parts|, e);
      SamePartitionInOrder(parts, hash, keyed, signals, init, contract, home, p);
      assert events == init + [e];
      SentStep(parts, hash, keyed, signals, init, e, p);
      EventsInStep(Sent(parts, hash, keyed, signals, init)[p], Key(keyed, e), e, here, signals, contract);
      FilterSnoc(init, e, (e: Event) => e.contract == contract);
      AppendAssoc(EventsIn(parts[p], contract), OfContract(init, contract), [e]);
    }
  }

  /**
   * Partitioned by contract, the events of a contract are all on one partition, in their order, with or without
   * signals.
   */
  lemma ContractStaysInOrder(parts: Partitions, keyed: bool, signals: bool, events: seq<Event>, contract: seq<CodeUnit>,
                             p: nat)
    requires p < |parts|
    ensures EventsIn(Sent(parts, ByContract, keyed, signals, events)[p], contract) == EventsIn(parts[p], contract)
              + if p == SimpleHashOf(contract) % |parts| then OfContract(events, contract) else []
  {
    SamePartitionInOrder(parts, ByContract, keyed, signals, events, contract, SimpleHashOf(contract) % |parts|, p);
  }

  /** The partitions while the signals of one event are being produced: those below i have theirs. */
  ghost function Signalled(parts: Partitions, chosen: nat, data: Record, signal: Record, i: nat): (r: Partitions)
    ensures |r| == |parts|
  {
    seq(|parts|, p requires 0 <= p < |parts| =>
      if p == chosen then parts[p] + [data] else if p < i then parts[p] + [signal] else parts[p])
  }

  class Producer {
    var partitions: Partitions

    constructor (count: nat)
      ensures partitions == seq(count, _ => [])
    {
      partitions := seq(count, _ => []);
    }

    method Produce(p: nat, record: Record)
      requires p < |partitions|
      modifies this
      ensures partitions == old(partitions)[p := old(partitions)[p] + [record]]
    {
      partitions := partitions[p := partitions[p] + [record]];
    }

    method SendEvent(hash: Event -> nat, keyed: bool, signals: bool, event: Event)
      requires |partitions| > 0
      modifies this
      ensures var count, before := |old(partitions)|, old(partitions);
              partitions == Signalled(before, PartitionOf(hash, count, event), Record(Key(keyed, event), Data(event)),
                                      Record(Key(keyed, event), Signal), if signals then count else 0)
    {
      ghost var before := partitions;
      var count := |partitions|;
      var chosen := PartitionOf(hash, count, event);
      var data, signal := Record(Key(keyed, event), Data(event)), Record(Key(keyed, event), Signal);
      Produce(chosen, data);
      assert partitions == Signalled(before, chosen, data, signal, 0);
      if signals {
        for partitionNumber := 0 to count
          invariant |before| == count
          invariant partitions == Signalled(before, chosen, data, signal, partitionNumber)
        {
          if partitionNumber != chosen {
            Produce(partitionNumber, signal);
          }
          assert partitions == Signalled(before, chosen, data, signal, partitionNumber + 1);
        }
      }
    }

    /** Send all events. Without a partitioner the library chooses partitions, and signals cannot be sent. */
    method SendData(partitioner: Option<Event -> nat>, library: Event -> nat, keyed: bool, signals: bool,
                    events: seq<Event>) returns (r: Result<()>)
      requires |partitions| > 0
      modifies this
      ensures r.Err? <==> signals && partitioner.None?
      ensures r.Err? ==> partitions == old(partitions)
      ensures r.Ok? ==> partitions == Sent(old(partitions), partitioner.GetOr(library), keyed, signals, events)
    {
      if signals && partitioner.None? {
        return Err("Signal record logic needs partitioner");
      }
      var hash := partitioner.GetOr(library);
      ghost var before := partitions;
      SentNothing(before, hash, keyed, signals);
      for k := 0 to |events|
        invariant |partitions| == |before| > 0
        invariant partitions == Sent(before, hash, keyed, signals, events[..k])
      {
        SentEvent(before, hash, keyed, signals, events, k);
        SendEvent(hash, keyed, signals, events[k]);
      }
      assert events[..|events|] == events;
      return Ok(());
    }
  }

  lemma SentNothing(parts: Partitions, hash: Event -> nat, keyed: bool, signals: bool)
    requires |parts| > 0
    ensures Sent(parts, hash, keyed, signals, []) == parts
  {
    forall p | 0 <= p < |parts| ensures Sent(parts, hash, keyed, signals, [])[p] == parts[p] {
      assert parts[p] + [] == parts[p];
    }
  }

  lemma SentEvent(parts: Partitions, hash: Event -> nat, keyed: bool, signals: bool, events: seq<Event>, k: nat)
    requires |parts| > 0 && k < |events|
    ensures Signalled(Sent(parts, hash, keyed, signals, events[..k]), PartitionOf(hash, |parts|, events[k]),
                      Record(Key(keyed, events[k]), Data(events[k])), Record(Key(keyed, events[k]), Signal),
                      if signals then |parts| else 0)
         == Sent(parts, hash, keyed, signals, events[..k + 1])
  {
    var before, e := Sent(parts, hash, keyed, signals, events[..k]), events[k];
    var after := Signalled(before, PartitionOf(hash, |parts|, e), Record(Key(keyed, e), Data(e)),
                           Record(Key(keyed, e), Signal), if signals then |parts| else 0);
    assert events[..k + 1] == events[..k] + [e];
    forall p | 0 <= p < |parts| ensures after[p] == Sent(parts, hash, keyed, signals, events[..k + 1])[p] {
      SentStep(parts, hash, keyed, signals, events[..k], e, p);
      assert before[p] + [] == before[p];
    }
  }
}

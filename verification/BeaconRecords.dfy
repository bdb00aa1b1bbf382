/**
 * What the fields of the beacon worker's records say: of which day they are, and when and with what balance a
 * validator was seen before. detectBalanceChanges and `work` of eth_beacon/eth_beacon_worker.ts.
 */
module BeaconRecords {
  import opened Common
  import opened BeaconDays
  import opened BeaconBalances
  import opened BeaconWorkers

  // ----- The records of one snapshot -----

  predicate OfDay(c: Change, slot: int, timestamp: int) {
    c.slot == slot && c.timestamp == timestamp
  }

  /** Every record carries the slot and the time of its snapshot. */
  lemma {:induction false} RecordsAreOfTheDay(lines: seq<Line>, state: State, slot: int, timestamp: int, c: Change)
    requires c in ChangesOf(lines, state, slot, timestamp)
    ensures OfDay(c, slot, timestamp)
  {
    var init := lines[..|lines| - 1];
    if c in ChangesOf(init, state, slot, timestamp) {
      RecordsAreOfTheDay(init, state, slot, timestamp, c);
    }
  }

  /** The record of a validator, from its line and from what was known of it. */
  predicate Records(c: Change, line: Line, state: State) {
    && c.validatorIndex == line.index && c.balance == line.balance
    && (line.index in state ==>
          c.oldBalance == state[line.index].balance && c.oldTimestamp == Some(state[line.index].timestamp))
    && (line.index !in state ==> c.oldBalance == 0 && c.oldTimestamp == None)
  }

  lemma {:induction false} OthersStay(lines: seq<Line>, state: State, timestamp: int, index: int)
    requires forall i :: 0 <= i < |lines| ==> lines[i].index != index
    ensures index in StateAfter(lines, state, timestamp) <==> index in state
    ensures index in state ==> StateAfter(lines, state, timestamp)[index] == state[index]
  {
    if lines != [] {
      OthersStay(lines[..|lines| - 1], state, timestamp, index);
    }
  }

  /** The line changes what is known of its validator. */
  predicate Changes(line: Line, state: State) {
    line.balance != if line.index in state then state[line.index].balance else 0
  }

  lemma {:induction false} OnlyListedHaveRecords(lines: seq<Line>, state: State, slot: int, timestamp: int, c: Change)
    requires c in ChangesOf(lines, state, slot, timestamp)
    ensures exists i :: 0 <= i < |lines| && lines[i].index == c.validatorIndex
  {
    var init := lines[..|lines| - 1];
    if c in ChangesOf(init, state, slot, timestamp) {
      OnlyListedHaveRecords(init, state, slot, timestamp, c);
      var i :| 0 <= i < |init| && init[i].index == c.validatorIndex;
      assert lines[i].index == c.validatorIndex;
    } else {
      assert lines[|lines| - 1].index == c.validatorIndex;
    }
  }

  /** How many records a validator has. */
  function CountFor(changes: seq<Change>, index: int): nat {
    |Filter(changes, (c: Change) => c.validatorIndex == index)|
  }

  lemma CountNone(changes: seq<Change>, index: int)
    requires forall c :: c in changes ==> c.validatorIndex != index
    ensures CountFor(changes, index) == 0
  {
    FilterNone(changes, (c: Change) => c.validatorIndex == index);
  }

  lemma CountSnoc(changes: seq<Change>, c: Change, index: int)
    ensures CountFor(changes + [c], index) == CountFor(changes, index) + if c.validatorIndex == index then 1 else 0
  {
    FilterSnoc(changes, c, (c: Change) => c.validatorIndex == index);
  }

  lemma NoneBefore(lines: seq<Line>, state: State, slot: int, timestamp: int)
    requires lines != [] && NoTwice(lines)
    ensures CountFor(ChangesOf(lines[..|lines| - 1], state, slot, timestamp), lines[|lines| - 1].index) == 0
  {
    var init, last := lines[..|lines| - 1], lines[|lines| - 1];
    forall c | c in ChangesOf(init, state, slot, timestamp) ensures c.validatorIndex != last.index {
      OnlyListedHaveRecords(init, state, slot, timestamp, c);
    }
    CountNone(ChangesOf(init, state, slot, timestamp), last.index);
  }

  /**
   * A snapshot that lists no validator twice gives a validator one record if its balance is not the known one, and
   * none otherwise; the record tells the new balance, and the balance and the time known before.
   */
  lemma {:induction false} RecordsOfSnapshot(lines: seq<Line>, state: State, slot: int, timestamp: int, i: nat)
    requires NoTwice(lines) && Positive(state) && i < |lines|
    ensures var changes := ChangesOf(lines, state, slot, timestamp);
            && CountFor(changes, lines[i].index) == (if Changes(lines[i], state) then 1 else 0)
            && forall c :: c in changes && c.validatorIndex == lines[i].index ==> Records(c, lines[i], state)
  {
    var init, last := lines[..|lines| - 1], lines[|lines| - 1];
    var before := StateAfter(init, state, timestamp);
    var changes := ChangesOf(init, state, slot, timestamp);
    OthersStay(init, state, timestamp, last.index);
    NoneBefore(lines, state, slot, timestamp);
    if i < |init| {
      RecordsOfSnapshot(init, state, slot, timestamp, i);
    } else {
      forall c | c in changes ensures c.validatorIndex != last.index {
        OnlyListedHaveRecords(init, state, slot, timestamp, c);
      }
    }
    if Unchanged(before, last) {
      assert changes + [] == changes;
    } else {
      CountSnoc(changes, ChangeOf(before, last, slot, timestamp), lines[i].index);
    }
  }

  // ----- Records link up -----

  /** The last record of a validator. */
  function LastOf(changes: seq<Change>, index: int): Option<Change> {
    if changes == [] then None
    else if changes[|changes| - 1].validatorIndex == index then Some(changes[|changes| - 1])
    else LastOf(changes[..|changes| - 1], index)
  }

  /** What the last record of a validator says of it, or else the state before all records. */
  function Known(changes: seq<Change>, state: State, index: int): Option<BalanceState> {
    match LastOf(changes, index)
    case Some(c) => if c.balance != 0 then Some(BalanceState(c.balance, c.timestamp)) else None
    case None => if index in state then Some(state[index]) else None
  }

  /** The record tells of its validator's past what was known. */
  predicate Recalls(c: Change, known: Option<BalanceState>) {
    match known
    case Some(b) => c.oldBalance == b.balance && c.oldTimestamp == Some(b.timestamp)
    case None => c.oldBalance == 0 && c.oldTimestamp == None
  }

  /** Every record recalls the record of its validator before it. */
  predicate LinkUp(changes: seq<Change>, state: State) {
    forall k :: 0 <= k < |changes| ==> Recalls(changes[k], Known(changes[..k], state, changes[k].validatorIndex))
  }

  lemma {:induction false} ReplayIsKnown(changes: seq<Change>, state: State, index: int)
    ensures var after := Replay(changes, state);
            Known(changes, state, index) == if index in after then Some(after[index]) else None
  {
    if changes != [] {
      ReplayIsKnown(changes[..|changes| - 1], state, index);
    }
  }

  lemma LinkSnoc(changes: seq<Change>, c: Change, state: State)
    requires LinkUp(changes, state) && Recalls(c, Known(changes, state, c.validatorIndex))
    ensures LinkUp(changes + [c], state)
  {
    var all := changes + [c];
    forall k | 0 <= k < |all| ensures Recalls(all[k], Known(all[..k], state, all[k].validatorIndex)) {
      assert all[..k] == changes[..k];
      if k == |changes| {
        assert changes[..k] == changes;
      }
    }
  }

  /** The records of a snapshot link up with those before it. */
  lemma {:induction false} SnapshotLinksUp(earlier: seq<Change>, lines: seq<Line>, state: State, slot: int,
                                           timestamp: int)
    requires LinkUp(earlier, state)
    ensures LinkUp(earlier + ChangesOf(lines, Replay(earlier, state), slot, timestamp), state)
  {
    var start := Replay(earlier, state);
    if lines == [] {
      assert earlier + [] == earlier;
    } else {
      var init, last := lines[..|lines| - 1], lines[|lines| - 1];
      var changes, before := ChangesOf(init, start, slot, timestamp), StateAfter(init, start, timestamp);
      SnapshotLinksUp(earlier, init, state, slot, timestamp);
      if Unchanged(before, last) {
        assert changes + [] == changes;
      } else {
        ReplayReproduces(init, start, slot, timestamp);
        ReplayAppend(earlier, changes, state);
        ReplayIsKnown(earlier + changes, state, last.index);
        LinkSnoc(earlier + changes, ChangeOf(before, last, slot, timestamp), state);
        assert earlier + changes + [ChangeOf(before, last, slot, timestamp)]
            == earlier + (changes + [ChangeOf(before, last, slot, timestamp)]);
      }
    }
  }

  /**
   * Over any days: each record carries as old balance and old time those of its validator's previous record, and none
   * when there is no such record or it left nothing.
   */
  lemma {:induction false} DaysLinkUp(days: seq<Day>, state: State)
    ensures LinkUp(DaysChanges(days, state), state)
  {
    if days != [] {
      var init, d := days[..|days| - 1], days[|days| - 1];
      DaysLinkUp(init, state);
      ReplayOfDays(init, state);
      SnapshotLinksUp(DaysChanges(init, state), d.lines, state, d.slot, d.timestamp);
    }
  }

  // ----- The records that work calls return -----

  /** The records returned by a series of calls. */
  function Returned(v: View, genesisTime: int, answers: seq<Answers>): seq<Change> {
    if answers == [] then []
    else
      var init, a := answers[..|answers| - 1], answers[|answers| - 1];
      var r := WorkStep(AfterCalls(v, genesisTime, init), genesisTime, a).1;
      Returned(v, genesisTime, init) + if r.Ok? then r.value else []
  }

  /** The records detected so far: those returned, and those waiting. */
  function Detected(v: View, genesisTime: int, answers: seq<Answers>): seq<Change> {
    Returned(v, genesisTime, answers) + Flatten(AfterCalls(v, genesisTime, answers).pending)
  }

  /** The record is of a slot, and of the time of that slot. */
  predicate OfItsSlot(c: Change, genesisTime: int) {
    c.timestamp == genesisTime + 12 * c.slot
  }

  predicate AllOfTheirSlots(changes: seq<Change>, genesisTime: int) {
    forall i :: 0 <= i < |changes| ==> OfItsSlot(changes[i], genesisTime)
  }

  ghost predicate RecordsHold(v: View, genesisTime: int, next: View, detected: seq<Change>) {
    && next.preloaded && LinkUp(detected, v.lastState) && Replay(detected, v.lastState) == next.lastState
    && AllOfTheirSlots(detected, genesisTime)
  }

  lemma StartDetects(v: View, genesisTime: int, now: View, lines: seq<Line>, before: seq<Change>)
    requires RecordsHold(v, genesisTime, now, before) && now.currentDailySlot.Some? && now.pending == []
    ensures var (next, batch) := StartDay(now, genesisTime, lines);
            && batch + Flatten(next.pending) == DayChanges(now, genesisTime, lines)
            && RecordsHold(v, genesisTime, next, before + DayChanges(now, genesisTime, lines))
  {
    var slot := now.currentDailySlot.value;
    var changes := DayChanges(now, genesisTime, lines);
    SnapshotLinksUp(before, lines, v.lastState, slot, SlotToTimestamp(genesisTime, slot));
    ReplayReproduces(lines, now.lastState, slot, SlotToTimestamp(genesisTime, slot));
    ReplayAppend(before, changes, v.lastState);
    forall c | c in changes ensures OfItsSlot(c, genesisTime) {
      RecordsAreOfTheDay(lines, now.lastState, slot, SlotToTimestamp(genesisTime, slot), c);
    }
    SlicesFacts(changes, MAX_KAFKA_MESSAGES);
  }

  /** One call adds to what was detected the day's records, if it starts a day, and else nothing. */
  lemma CallDetects(v: View, genesisTime: int, now: View, a: Answers, returned: seq<Change>)
    requires RecordsHold(v, genesisTime, now, returned + Flatten(now.pending))
    ensures var (next, r) := WorkStep(now, genesisTime, a);
            RecordsHold(v, genesisTime, next, returned + (if r.Ok? then r.value else []) + Flatten(next.pending))
  {
    var (next, r) := WorkStep(now, genesisTime, a);
    if now.pending != [] {
      AppendAssoc(returned, now.pending[0], Flatten(now.pending[1..]));
    } else {
      assert returned + Flatten(now.pending) == returned && returned + [] == returned;
      if a.head.Some? {
        var day := ChooseDay(now, genesisTime, a.head.value);
        if day.currentDailySlot.Some? && a.balances(day.currentDailySlot.value).Some? {
          var lines := a.balances(day.currentDailySlot.value).value;
          StartDetects(v, genesisTime, day, lines, returned);
          AppendAssoc(returned, r.value, Flatten(next.pending));
        }
      }
    }
  }

  /**
   * Over any calls of a worker that knows a state, whatever the node answers and fails to answer: the records that
   * are returned and that wait link up from that state, lead to the state that is known now, and have the times of
   * their slots.
   */
  lemma {:induction false} CallsLinkUp(v: View, genesisTime: int, answers: seq<Answers>)
    requires v.preloaded && v.pending == []
    ensures RecordsHold(v, genesisTime, AfterCalls(v, genesisTime, answers), Detected(v, genesisTime, answers))
  {
    if answers != [] {
      var init, a := answers[..|answers| - 1], answers[|answers| - 1];
      CallsLinkUp(v, genesisTime, init);
      CallDetects(v, genesisTime, AfterCalls(v, genesisTime, init), a, Returned(v, genesisTime, init));
    }
  }
}

/**
 * Daily balance changes of validators: detectBalanceChanges and preloadLastBalances of eth_beacon/eth_beacon_worker.ts.
 */
module BeaconBalances {
  import opened Common

  /** One line of a snapshot. */
  datatype Line = Line(index: int, balance: nat)

  datatype BalanceState = BalanceState(balance: nat, timestamp: int)

  type State = map<int, BalanceState>

  datatype Change = Change(slot: int, timestamp: int, balance: nat, oldBalance: nat, oldTimestamp: Option<int>,
                           validatorIndex: int)

  /** The day of a snapshot. */
  datatype Day = Day(slot: int, timestamp: int, lines: seq<Line>)

  function BalanceOf(state: State, index: int): nat {
    if index in state then state[index].balance else 0
  }

  /** A line that leaves the state as it is: the balance is unchanged, or zero and never seen. */
  predicate Unchanged(state: State, line: Line) {
    if line.index in state then state[line.index].balance == line.balance else line.balance == 0
  }

  function ChangeOf(state: State, line: Line, slot: int, timestamp: int): Change {
    Change(slot, timestamp, line.balance, BalanceOf(state, line.index),
           if line.index in state then Some(state[line.index].timestamp) else None, line.index)
  }

  function SetBalance(state: State, index: int, balance: nat, timestamp: int): State {
    if balance == 0 then state - {index} else state[index := BalanceState(balance, timestamp)]
  }

  function StepState(state: State, line: Line, timestamp: int): State {
    if Unchanged(state, line) then state else SetBalance(state, line.index, line.balance, timestamp)
  }

  function StateAfter(lines: seq<Line>, state: State, timestamp: int): State {
    if lines == [] then state
    else StepState(StateAfter(lines[..|lines| - 1], state, timestamp), lines[|lines| - 1], timestamp)
  }

  function ChangesOf(lines: seq<Line>, state: State, slot: int, timestamp: int): seq<Change> {
    if lines == [] then []
    else
      var init, last := lines[..|lines| - 1], lines[|lines| - 1];
      var before := StateAfter(init, state, timestamp);
      ChangesOf(init, state, slot, timestamp)
        + if Unchanged(before, last) then [] else [ChangeOf(before, last, slot, timestamp)]
  }

  function Preloaded(lines: seq<Line>, state: State, timestamp: int): State {
    if lines == [] then state
    else
      var before, last := Preloaded(lines[..|lines| - 1], state, timestamp), lines[|lines| - 1];
      if last.balance > 0 then before[last.index := BalanceState(last.balance, timestamp)] else before
  }

  /** The balances the worker knows, updated in place. */
  class Validators {
    var lastState: State

    constructor ()
      ensures lastState == map[]
    {
      lastState := map[];
    }

    method DetectBalanceChanges(lines: seq<Line>, slot: int, timestamp: int) returns (changes: seq<Change>)
      modifies this
      ensures changes == ChangesOf(lines, old(lastState), slot, timestamp)
      ensures lastState == StateAfter(lines, old(lastState), timestamp)
    {
      changes := [];
      for i := 0 to |lines|
        invariant changes == ChangesOf(lines[..i], old(lastState), slot, timestamp)
        invariant lastState == StateAfter(lines[..i], old(lastState), timestamp)
      {
        var b := lines[i];
        assert lines[..i + 1][..i] == lines[..i];
        if b.index in lastState && lastState[b.index].balance == b.balance {
          continue;
        }
        if b.index !in lastState && b.balance == 0 {
          continue;
        }
        changes := changes + [ChangeOf(lastState, b, slot, timestamp)];
        if b.balance == 0 {
          lastState := lastState - {b.index};
        } else {
          lastState := lastState[b.index := BalanceState(b.balance, timestamp)];
        }
      }
      assert lines[..|lines|] == lines;
    }

    method PreloadLastBalances(lines: seq<Line>, timestamp: int)
      modifies this
      ensures lastState == Preloaded(lines, old(lastState), timestamp)
    {
      for i := 0 to |lines|
        invariant lastState == Preloaded(lines[..i], old(lastState), timestamp)
      {
        assert lines[..i + 1][..i] == lines[..i];
        if lines[i].balance > 0 {
          lastState := lastState[lines[i].index := BalanceState(lines[i].balance, timestamp)];
        }
      }
      assert lines[..|lines|] == lines;
    }
  }

  // ----- Replaying the records -----

  /** What a reader of the records knows after reading them. */
  function Replay(changes: seq<Change>, state: State): State {
    if changes == [] then state
    else
      var c := changes[|changes| - 1];
      SetBalance(Replay(changes[..|changes| - 1], state), c.validatorIndex, c.balance, c.timestamp)
  }

  lemma ReplaySnoc(changes: seq<Change>, c: Change, state: State)
    ensures Replay(changes + [c], state) == SetBalance(Replay(changes, state), c.validatorIndex, c.balance, c.timestamp)
  {
    assert (changes + [c])[..|changes|] == changes;
  }

  lemma {:induction false} ReplayAppend(a: seq<Change>, b: seq<Change>, state: State)
    ensures Replay(a + b, state) == Replay(b, Replay(a, state))
  {
    if b == [] {
      assert a + b == a;
    } else {
      var init, last := b[..|b| - 1], b[|b| - 1];
      assert a + b == a + init + [last] && b == init + [last];
      ReplayAppend(a, init, state);
      ReplaySnoc(a + init, last, state);
      ReplaySnoc(init, last, Replay(a, state));
    }
  }

  /** The records of a snapshot tell everything that happened to the state. */
  lemma {:induction false} ReplayReproduces(lines: seq<Line>, state: State, slot: int, timestamp: int)
    ensures Replay(ChangesOf(lines, state, slot, timestamp), state) == StateAfter(lines, state, timestamp)
  {
    if lines != [] {
      var init, last := lines[..|lines| - 1], lines[|lines| - 1];
      var before := StateAfter(init, state, timestamp);
      var changes := ChangesOf(init, state, slot, timestamp);
      ReplayReproduces(init, state, slot, timestamp);
      if Unchanged(before, last) {
        assert changes + [] == changes;
      } else {
        ReplaySnoc(changes, ChangeOf(before, last, slot, timestamp), state);
      }
    }
  }

  /** How much the records add to a validator's balance. */
  function Gained(changes: seq<Change>, index: int): int {
    if changes == [] then 0
    else
      var c := changes[|changes| - 1];
      Gained(changes[..|changes| - 1], index) + if c.validatorIndex == index then c.balance - c.oldBalance else 0
  }

  /** Old and new balances of the records link up: they sum to the difference over the whole snapshot. */
  lemma {:induction false} RecordsAddUp(lines: seq<Line>, state: State, slot: int, timestamp: int, index: int)
    ensures Gained(ChangesOf(lines, state, slot, timestamp), index)
         == BalanceOf(StateAfter(lines, state, timestamp), index) - BalanceOf(state, index)
  {
    if lines != [] {
      var init, last := lines[..|lines| - 1], lines[|lines| - 1];
      var before := StateAfter(init, state, timestamp);
      var changes := ChangesOf(init, state, slot, timestamp);
      RecordsAddUp(init, state, slot, timestamp, index);
      if Unchanged(before, last) {
        assert changes + [] == changes;
      } else {
        assert (changes + [ChangeOf(before, last, slot, timestamp)])[..|changes|] == changes;
      }
    }
  }

  // ----- The state after a day is the day's snapshot -----

  predicate NoTwice(lines: seq<Line>) {
    forall i, j :: 0 <= i < j < |lines| ==> lines[i].index != lines[j].index
  }

  predicate Listed(lines: seq<Line>, index: int) {
    exists i :: 0 <= i < |lines| && lines[i].index == index
  }

  ghost predicate NoneDropped(state: State, lines: seq<Line>) {
    forall index :: index in state ==> Listed(lines, index)
  }

  /** The balance the snapshot gives a validator; an unlisted one keeps what it had. */
  function Shown(lines: seq<Line>, index: int, otherwise: nat): nat {
    if lines == [] then otherwise
    else if lines[|lines| - 1].index == index then lines[|lines| - 1].balance
    else Shown(lines[..|lines| - 1], index, otherwise)
  }

  /** Balances of zero are never kept. */
  predicate Positive(state: State) {
    forall index :: index in state ==> state[index].balance > 0
  }

  lemma StepShows(state: State, line: Line, timestamp: int, index: int)
    ensures BalanceOf(StepState(state, line, timestamp), index) ==
            if index == line.index then line.balance else BalanceOf(state, index)
    ensures Positive(state) ==> Positive(StepState(state, line, timestamp))
  {
  }

  /** After a snapshot the state has its last balance of each validator. */
  lemma {:induction false} StateShowsSnapshot(lines: seq<Line>, state: State, timestamp: int, index: int)
    ensures BalanceOf(StateAfter(lines, state, timestamp), index) == Shown(lines, index, BalanceOf(state, index))
    ensures Positive(state) ==> Positive(StateAfter(lines, state, timestamp))
  {
    if lines != [] {
      var init, last := lines[..|lines| - 1], lines[|lines| - 1];
      StateShowsSnapshot(init, state, timestamp, index);
      StepShows(StateAfter(init, state, timestamp), last, timestamp, index);
    }
  }

  lemma {:induction false} ListedIsShown(lines: seq<Line>, index: int, a: nat, b: nat)
    requires Listed(lines, index)
    ensures Shown(lines, index, a) == Shown(lines, index, b)
  {
    if lines[|lines| - 1].index != index {
      var i :| 0 <= i < |lines| && lines[i].index == index;
      assert lines[..|lines| - 1][i].index == index;
      ListedIsShown(lines[..|lines| - 1], index, a, b);
    }
  }

  /** The same validators with the same balances; when they were seen may differ. */
  ghost predicate SameBalances(a: State, b: State) {
    forall index :: SameAt(a, b, index)
  }

  predicate SameAt(a: State, b: State, index: int) {
    (index in a <==> index in b) && BalanceOf(a, index) == BalanceOf(b, index)
  }

  lemma SameWhenPositive(a: State, b: State)
    requires Positive(a) && Positive(b) && forall index :: BalanceOf(a, index) == BalanceOf(b, index)
    ensures SameBalances(a, b)
  {
    forall index ensures SameAt(a, b, index) {
      assert BalanceOf(a, index) == BalanceOf(b, index);
    }
  }

  lemma {:induction false} PreloadShows(lines: seq<Line>, state: State, timestamp: int, index: int)
    requires NoTwice(lines) && Positive(state)
    ensures Positive(Preloaded(lines, state, timestamp))
    ensures BalanceOf(Preloaded(lines, state, timestamp), index) ==
            if Shown(lines, index, 0) > 0 then Shown(lines, index, 0) else BalanceOf(state, index)
  {
    if lines != [] {
      var init, last := lines[..|lines| - 1], lines[|lines| - 1];
      PreloadShows(init, state, timestamp, index);
      if last.index == index {
        UnlistedIsNotShown(init, index);
      }
    }
  }

  lemma {:induction false} UnlistedIsNotShown(lines: seq<Line>, index: int)
    requires forall i :: 0 <= i < |lines| ==> lines[i].index != index
    ensures Shown(lines, index, 0) == 0
  {
    if lines != [] {
      UnlistedIsNotShown(lines[..|lines| - 1], index);
    }
  }

  /** A snapshot that lists every known validator sets the state to its nonzero balances, as preloading it would. */
  lemma SnapshotDeterminesState(lines: seq<Line>, state: State, timestamp: int, preloadTimestamp: int)
    requires NoTwice(lines) && NoneDropped(state, lines) && Positive(state)
    ensures SameBalances(StateAfter(lines, state, timestamp), Preloaded(lines, map[], preloadTimestamp))
  {
    var a, b := StateAfter(lines, state, timestamp), Preloaded(lines, map[], preloadTimestamp);
    StateShowsSnapshot(lines, state, timestamp, 0);
    PreloadShows(lines, map[], preloadTimestamp, 0);
    forall index ensures BalanceOf(a, index) == BalanceOf(b, index) {
      StateShowsSnapshot(lines, state, timestamp, index);
      PreloadShows(lines, map[], preloadTimestamp, index);
      if Listed(lines, index) {
        ListedIsShown(lines, index, BalanceOf(state, index), 0);
      } else {
        UnlistedIsNotShown(lines, index);
        UnlistedKeepsOther(lines, index, BalanceOf(state, index));
      }
    }
    SameWhenPositive(a, b);
  }

  lemma {:induction false} UnlistedKeepsOther(lines: seq<Line>, index: int, otherwise: nat)
    requires forall i :: 0 <= i < |lines| ==> lines[i].index != index
    ensures Shown(lines, index, otherwise) == otherwise
  {
    if lines != [] {
      UnlistedKeepsOther(lines[..|lines| - 1], index, otherwise);
    }
  }

  /** Looking at the same snapshot again finds nothing. */
  lemma {:induction false} NothingNew(lines: seq<Line>, state: State, slot: int, timestamp: int)
    requires forall i :: 0 <= i < |lines| ==> Unchanged(state, lines[i])
    ensures ChangesOf(lines, state, slot, timestamp) == [] && StateAfter(lines, state, timestamp) == state
  {
    if lines != [] {
      NothingNew(lines[..|lines| - 1], state, slot, timestamp);
    }
  }

  lemma SecondLookFindsNothing(lines: seq<Line>, state: State, slot: int, timestamp: int, again: int)
    requires NoTwice(lines) && Positive(state)
    ensures var after := StateAfter(lines, state, timestamp);
            ChangesOf(lines, after, slot, again) == [] && StateAfter(lines, after, again) == after
  {
    var after := StateAfter(lines, state, timestamp);
    forall i | 0 <= i < |lines| ensures Unchanged(after, lines[i]) {
      StateShowsSnapshot(lines, state, timestamp, lines[i].index);
      ShownOnce(lines, i, BalanceOf(state, lines[i].index));
    }
    NothingNew(lines, after, slot, again);
  }

  lemma {:induction false} ShownOnce(lines: seq<Line>, i: nat, otherwise: nat)
    requires NoTwice(lines) && i < |lines|
    ensures Shown(lines, lines[i].index, otherwise) == lines[i].balance
  {
    if i < |lines| - 1 {
      ShownOnce(lines[..|lines| - 1], i, otherwise);
    }
  }

  // ----- Over many days -----

  function DaysState(days: seq<Day>, state: State): State {
    if days == [] then state
    else
      var d := days[|days| - 1];
      StateAfter(d.lines, DaysState(days[..|days| - 1], state), d.timestamp)
  }

  function DaysChanges(days: seq<Day>, state: State): seq<Change> {
    if days == [] then []
    else
      var d := days[|days| - 1];
      DaysChanges(days[..|days| - 1], state)
        + ChangesOf(d.lines, DaysState(days[..|days| - 1], state), d.slot, d.timestamp)
  }

  /** Replaying the records of any days from an empty state reproduces the worker's state. */
  lemma {:induction false} ReplayOfDays(days: seq<Day>, state: State)
    ensures Replay(DaysChanges(days, state), state) == DaysState(days, state)
  {
    if days != [] {
      var init, d := days[..|days| - 1], days[|days| - 1];
      ReplayOfDays(init, state);
      ReplayReproduces(d.lines, DaysState(init, state), d.slot, d.timestamp);
      ReplayAppend(DaysChanges(init, state), ChangesOf(d.lines, DaysState(init, state), d.slot, d.timestamp), state);
    }
  }

  /** The same record, but for when the old balance was seen. */
  predicate SameChange(a: Change, b: Change) {
    a == b.(oldTimestamp := a.oldTimestamp) && (a.oldTimestamp.Some? <==> b.oldTimestamp.Some?)
  }

  predicate SameChanges(a: seq<Change>, b: seq<Change>) {
    |a| == |b| && forall i :: 0 <= i < |a| ==> SameChange(a[i], b[i])
  }

  lemma SameChangesAppend(a: seq<Change>, b: seq<Change>, c: seq<Change>, d: seq<Change>)
    requires SameChanges(a, b) && SameChanges(c, d)
    ensures SameChanges(a + c, b + d)
  {
  }

  lemma SameStep(a: State, b: State, line: Line, timestamp: int)
    requires SameBalances(a, b)
    ensures Unchanged(a, line) <==> Unchanged(b, line)
    ensures SameBalances(StepState(a, line, timestamp), StepState(b, line, timestamp))
  {
    assert SameAt(a, b, line.index);
    forall index ensures SameAt(StepState(a, line, timestamp), StepState(b, line, timestamp), index) {
      assert SameAt(a, b, index);
    }
  }

  lemma {:induction false} SameFromSameBalances(lines: seq<Line>, a: State, b: State, slot: int, timestamp: int)
    requires SameBalances(a, b)
    ensures SameBalances(StateAfter(lines, a, timestamp), StateAfter(lines, b, timestamp))
    ensures SameChanges(ChangesOf(lines, a, slot, timestamp), ChangesOf(lines, b, slot, timestamp))
  {
    if lines != [] {
      var init, last := lines[..|lines| - 1], lines[|lines| - 1];
      var a', b' := StateAfter(init, a, timestamp), StateAfter(init, b, timestamp);
      SameFromSameBalances(init, a, b, slot, timestamp);
      SameStep(a', b', last, timestamp);
      assert SameAt(a', b', last.index);
      assert SameChange(ChangeOf(a', last, slot, timestamp), ChangeOf(b', last, slot, timestamp));
    }
  }

  lemma {:induction false} SameDays(days: seq<Day>, a: State, b: State)
    requires SameBalances(a, b)
    ensures SameBalances(DaysState(days, a), DaysState(days, b))
    ensures SameChanges(DaysChanges(days, a), DaysChanges(days, b))
  {
    if days != [] {
      var init, d := days[..|days| - 1], days[|days| - 1];
      SameDays(init, a, b);
      SameFromSameBalances(d.lines, DaysState(init, a), DaysState(init, b), d.slot, d.timestamp);
      SameChangesAppend(DaysChanges(init, a), DaysChanges(init, b),
                        ChangesOf(d.lines, DaysState(init, a), d.slot, d.timestamp),
                        ChangesOf(d.lines, DaysState(init, b), d.slot, d.timestamp));
    }
  }

  /**
   * A worker restarted after a day, with the balances of that day's slot preloaded, goes on to export the
   * records it would have exported, but for the time of the old balance.
   */
  lemma PreloadResumes(state: State, last: Day, preloadTimestamp: int, later: seq<Day>)
    requires NoTwice(last.lines) && NoneDropped(state, last.lines) && Positive(state)
    ensures var kept := StateAfter(last.lines, state, last.timestamp);
            var preloaded := Preloaded(last.lines, map[], preloadTimestamp);
            SameChanges(DaysChanges(later, kept), DaysChanges(later, preloaded))
  {
    SnapshotDeterminesState(last.lines, state, last.timestamp, preloadTimestamp);
    SameDays(later, StateAfter(last.lines, state, last.timestamp), Preloaded(last.lines, map[], preloadTimestamp));
  }

  /** Over the days of a chain no state ever holds a validator that the next snapshot drops, nor a zero balance. */
  ghost predicate Snapshots(days: seq<Day>) {
    && (forall i :: 0 <= i < |days| ==> NoTwice(days[i].lines))
    && forall i, j, index :: 0 <= i <= j < |days| && Listed(days[i].lines, index) ==> Listed(days[j].lines, index)
  }

  lemma {:induction false} DaysStateIsListed(days: seq<Day>)
    requires Snapshots(days)
    ensures Positive(DaysState(days, map[]))
    ensures days == [] ==> DaysState(days, map[]) == map[]
    ensures days != [] ==> NoneDropped(DaysState(days, map[]), days[|days| - 1].lines)
  {
    if days != [] {
      var init, d := days[..|days| - 1], days[|days| - 1];
      DaysStateIsListed(init);
      var before, after := DaysState(init, map[]), DaysState(days, map[]);
      StateShowsSnapshot(d.lines, before, d.timestamp, 0);
      forall index | index in after ensures Listed(d.lines, index) {
        StateShowsSnapshot(d.lines, before, d.timestamp, index);
        if !Listed(d.lines, index) {
          UnlistedKeepsOther(d.lines, index, BalanceOf(before, index));
        }
      }
    }
  }

  /**
   * Restarting after any of the days and preloading its slot, the rest of the days gives the same records,
   * but for the times of the old balances; and until then replaying reproduces the nonzero balances.
   */
  lemma RestartRepeatsNothing(days: seq<Day>, preloadTimestamp: int, later: seq<Day>)
    requires Snapshots(days) && days != []
    ensures var last := days[|days| - 1];
            var preloaded := Preloaded(last.lines, map[], preloadTimestamp);
            && SameBalances(Replay(DaysChanges(days, map[]), map[]), preloaded)
            && SameChanges(DaysChanges(later, DaysState(days, map[])), DaysChanges(later, preloaded))
  {
    var init, last := days[..|days| - 1], days[|days| - 1];
    assert Snapshots(init);
    DaysStateIsListed(init);
    ReplayOfDays(days, map[]);
    var before := DaysState(init, map[]);
    assert NoneDropped(before, last.lines) by {
      forall index | index in before ensures Listed(last.lines, index) {
        assert Listed(days[|init| - 1].lines, index);
      }
    }
    SnapshotDeterminesState(last.lines, before, last.timestamp, preloadTimestamp);
    PreloadResumes(before, last, preloadTimestamp, later);
  }
}

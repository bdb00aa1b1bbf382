/** The daily work of the beacon worker and its queue of batches: `work` of eth_beacon/eth_beacon_worker.ts. */
module BeaconWorkers {
  import opened Common
  import opened Chunks
  import opened BeaconDays
  import opened BeaconBalances

  const MAX_KAFKA_MESSAGES := 140_000

  /** What the node answers during one call: the head, and the balances at a slot, unless the request fails. */
  datatype Answers = Answers(head: Option<int>, balances: int -> Option<seq<Line>>)

  /** The fields of the worker. */
  datatype View = View(lastState: State, preloaded: bool, currentDailySlot: Option<int>, pending: seq<seq<Change>>,
                       processingSlot: Option<int>, processingCount: nat, lastExported: int, lastPrimaryKey: int)

  /** Hand out the next batch; with the last one the day is complete. */
  function PopBatch(v: View): View
    requires v.pending != []
  {
    var rest := v.pending[1..];
    if rest == [] && v.processingSlot.Some? then
      v.(pending := rest, lastExported := v.processingSlot.value,
         lastPrimaryKey := v.lastPrimaryKey + v.processingCount,
         processingSlot := None, processingCount := 0, currentDailySlot := None)
    else v.(pending := rest)
  }

  /** Before the first day the balances of the saved position are loaded. */
  function PreloadBalances(v: View, genesisTime: int, a: Answers): Option<View> {
    if v.preloaded then Some(v)
    else if v.lastExported <= 0 then Some(v.(preloaded := true))
    else
      match a.balances(v.lastExported)
      case None => None
      case Some(lines) =>
        Some(v.(preloaded := true,
                lastState := Preloaded(lines, v.lastState, SlotToTimestamp(genesisTime, v.lastExported))))
  }

  /** The slot of the day to export, once the head has reached it. */
  function ChooseDay(v: View, genesisTime: int, head: int): View {
    if v.currentDailySlot.Some? then v
    else
      var slot := LastUtcDaySlot(genesisTime, NextDayIndex(genesisTime, v.lastExported));
      if slot > head then v else v.(currentDailySlot := Some(slot))
  }

  function DayChanges(v: View, genesisTime: int, lines: seq<Line>): seq<Change>
    requires v.currentDailySlot.Some?
  {
    var slot := v.currentDailySlot.value;
    ChangesOf(lines, v.lastState, slot, SlotToTimestamp(genesisTime, slot))
  }

  /** Detect the day's changes, hand out the first batch and queue the others. */
  function StartDay(v: View, genesisTime: int, lines: seq<Line>): (View, seq<Change>)
    requires v.currentDailySlot.Some? && v.pending == []
  {
    var slot := v.currentDailySlot.value;
    var changes := DayChanges(v, genesisTime, lines);
    var batches := Slices(changes, MAX_KAFKA_MESSAGES);
    (v.(lastState := StateAfter(lines, v.lastState, SlotToTimestamp(genesisTime, slot)),
        processingSlot := Some(slot), processingCount := |changes|,
        pending := if batches == [] then [] else batches[1..]),
     if batches == [] then [] else batches[0])
  }

  function WorkStep(v: View, genesisTime: int, a: Answers): (View, Result<seq<Change>>) {
    if v.pending != [] then (PopBatch(v), Ok(v.pending[0]))
    else
      match PreloadBalances(v, genesisTime, a)
      case None => (v, Err("node"))
      case Some(w) =>
        if a.head.None? then (w, Err("node"))
        else
          var day := ChooseDay(w, genesisTime, a.head.value);
          if day.currentDailySlot.None? then (day, Ok([]))
          else
            match a.balances(day.currentDailySlot.value)
            case None => (day, Err("node"))
            case Some(lines) =>
              var (next, batch) := StartDay(day, genesisTime, lines);
              (next, Ok(batch))
  }

  class BeaconWorker {
    const genesisTime: int
    const lastState: Validators
    var balancesPreloaded: bool
    var currentDailySlot: Option<int>
    var pendingBatches: seq<seq<Change>>
    var processingDailySlot: Option<int>
    var processingChangesCount: nat
    var lastExportedBlock: int
    var lastPrimaryKey: int

    constructor (genesisTime: int, lastExportedBlock: int, lastPrimaryKey: int)
      ensures this.genesisTime == genesisTime && fresh(lastState)
      ensures Fields() == View(map[], false, None, [], None, 0, lastExportedBlock, lastPrimaryKey)
    {
      this.genesisTime := genesisTime;
      lastState := new Validators();
      balancesPreloaded, currentDailySlot, pendingBatches := false, None, [];
      processingDailySlot, processingChangesCount := None, 0;
      this.lastExportedBlock, this.lastPrimaryKey := lastExportedBlock, lastPrimaryKey;
    }

    function Fields(): View
      reads this, lastState
    {
      View(lastState.lastState, balancesPreloaded, currentDailySlot, pendingBatches, processingDailySlot,
           processingChangesCount, lastExportedBlock, lastPrimaryKey)
    }

    method NextBatch() returns (batch: seq<Change>)
      requires pendingBatches != []
      modifies this
      ensures Fields() == PopBatch(old(Fields())) && batch == old(pendingBatches)[0]
    {
      batch := pendingBatches[0];
      pendingBatches := pendingBatches[1..];
      if |pendingBatches| == 0 && processingDailySlot.Some? {
        lastExportedBlock := processingDailySlot.value;
        lastPrimaryKey := lastPrimaryKey + processingChangesCount;
        processingDailySlot := None;
        processingChangesCount := 0;
        currentDailySlot := None;
      }
    }

    method Preload(a: Answers) returns (ok: bool)
      modifies this, lastState
      ensures ok == PreloadBalances(old(Fields()), genesisTime, a).Some?
      ensures Fields() == PreloadBalances(old(Fields()), genesisTime, a).GetOr(old(Fields()))
    {
      if !balancesPreloaded {
        if lastExportedBlock > 0 {
          var lines := a.balances(lastExportedBlock);
          if lines.None? {
            return false;
          }
          lastState.PreloadLastBalances(lines.value, SlotToTimestamp(genesisTime, lastExportedBlock));
        }
        balancesPreloaded := true;
      }
      return true;
    }

    method ProcessDay(lines: seq<Line>) returns (batch: seq<Change>)
      requires currentDailySlot.Some? && pendingBatches == []
      modifies this, lastState
      ensures (Fields(), batch) == StartDay(old(Fields()), genesisTime, lines)
    {
      var dailySlot := currentDailySlot.value;
      var dayChanges := lastState.DetectBalanceChanges(lines, dailySlot, SlotToTimestamp(genesisTime, dailySlot));
      pendingBatches := Batches(dayChanges);
      processingDailySlot, processingChangesCount := Some(dailySlot), |dayChanges|;
      if |pendingBatches| == 0 {
        return [];
      }
      batch := pendingBatches[0];
      pendingBatches := pendingBatches[1..];
    }

    method Work(a: Answers) returns (r: Result<seq<Change>>)
      modifies this, lastState
      ensures (Fields(), r) == WorkStep(old(Fields()), genesisTime, a)
    {
      if |pendingBatches| > 0 {
        var batch := NextBatch();
        return Ok(batch);
      }
      var preloaded := Preload(a);
      if !preloaded || a.head.None? {
        return Err("node");
      }
      if currentDailySlot.None? {
        var slot := LastUtcDaySlot(genesisTime, NextDayIndex(genesisTime, lastExportedBlock));
        if slot > a.head.value {
          return Ok([]);
        }
        currentDailySlot := Some(slot);
      }
      var lines := a.balances(currentDailySlot.value);
      if lines.None? {
        return Err("node");
      }
      var batch := ProcessDay(lines.value);
      return Ok(batch);
    }
  }

  method Batches(dayChanges: seq<Change>) returns (pending: seq<seq<Change>>)
    ensures pending == Slices(dayChanges, MAX_KAFKA_MESSAGES)
  {
    pending := [];
    var i := 0;
    ghost var rest := dayChanges;
    while i < |dayChanges|
      invariant 0 <= i && rest == dayChanges[Min(i, |dayChanges|)..]
      invariant pending + Slices(rest, MAX_KAFKA_MESSAGES) == Slices(dayChanges, MAX_KAFKA_MESSAGES)
    {
      var end := Min(i + MAX_KAFKA_MESSAGES, |dayChanges|);
      SliceRest(dayChanges, i, end);
      SlicesStep(rest, MAX_KAFKA_MESSAGES, end - i, pending);
      pending := pending + [dayChanges[i..end]];
      rest := dayChanges[end..];
      i := i + MAX_KAFKA_MESSAGES;
    }
  }

  // ----- A day with more than one batch -----

  /** The fields after some more calls, as long as batches are pending; the node is not asked. */
  function AfterPops(v: View, k: nat): View
    requires k <= |v.pending|
    ensures AfterPops(v, k).pending == v.pending[k..]
  {
    if k == 0 then v else PopBatch(AfterPops(v, k - 1))
  }

  /** A call with batches pending returns the next and changes nothing else, unless it is the last. */
  lemma PendingBatches(v: View, genesisTime: int, a: Answers, k: nat)
    requires k < |v.pending| && v.processingSlot.Some?
    ensures WorkStep(AfterPops(v, k), genesisTime, a) == (AfterPops(v, k + 1), Ok(v.pending[k]))
    ensures AfterPops(v, k) == v.(pending := v.pending[k..])
    ensures AfterPops(v, |v.pending|) ==
            v.(pending := [], lastExported := v.processingSlot.value,
               lastPrimaryKey := v.lastPrimaryKey + v.processingCount,
               processingSlot := None, processingCount := 0, currentDailySlot := None)
  {
    PoppedBefore(v, k);
    PoppedBefore(v, |v.pending| - 1);
  }

  lemma {:induction false} PoppedBefore(v: View, k: nat)
    requires k < |v.pending| && v.processingSlot.Some?
    ensures AfterPops(v, k) == v.(pending := v.pending[k..])
  {
    if k > 0 {
      PoppedBefore(v, k - 1);
    } else {
      assert v.pending[0..] == v.pending;
    }
  }

  predicate AllWithin<T>(batches: seq<seq<T>>, size: int) {
    forall i :: 0 <= i < |batches| ==> 1 <= |batches[i]| <= size
  }

  /** Slices are not empty and not too big, there are as many as it takes, and together they are the whole. */
  lemma {:induction false} SlicesFacts<T>(s: seq<T>, size: int)
    requires size >= 1
    ensures AllWithin(Slices(s, size), size)
    ensures Flatten(Slices(s, size)) == s
    ensures |Slices(s, size)| == CeilDiv(|s|, size)
    decreases |s|
  {
    if |s| == 0 {
      SmallQuotient(size - 1, size);
    } else if |s| <= size {
      assert Flatten([s]) == s + Flatten([s][1..]);
      OneMore(|s| - size, size);
      SmallQuotient(|s| - 1, size);
    } else {
      SlicesFacts(s[size..], size);
      OneMore(|s| - size, size);
      var rest := Slices(s[size..], size);
      assert ([s[..size]] + rest)[1..] == rest;
      assert s == s[..size] + s[size..];
    }
  }

  lemma SmallQuotient(a: int, b: int)
    requires 0 <= a < b
    ensures a / b == 0
  {
  }

  lemma QuotientIs(x: int, b: int, q: int, r: int)
    requires b > 0 && x == b * q + r && 0 <= r < b
    ensures x / b == q
  {
    var d := x / b - q;
    assert b * d == r - x % b;
    MultipleBounds(b, d);
  }

  lemma MultipleBounds(b: int, d: int)
    requires b > 0
    ensures d >= 1 ==> b * d >= b
    ensures d <= -1 ==> b * d <= -b
  {
  }

  lemma OneMore(a: int, b: int)
    requires b > 0
    ensures CeilDiv(a + b, b) == CeilDiv(a, b) + 1
  {
    var q, r := (a + b - 1) / b, (a + b - 1) % b;
    assert b * (q + 1) == b * q + b;
    QuotientIs(a + b + b - 1, b, q + 1, r);
  }

  /** The call that starts the day the worker is at, with its changes. */
  ghost predicate Starts(v: View, genesisTime: int, a: Answers, day: View, lines: seq<Line>) {
    && v.pending == [] && a.head.Some?
    && var w := PreloadBalances(v, genesisTime, a);
       w.Some? && day == ChooseDay(w.value, genesisTime, a.head.value)
       && day.currentDailySlot.Some? && a.balances(day.currentDailySlot.value) == Some(lines)
  }

  /** Batches of the day's changes, in order, none empty and none too big. */
  predicate BatchesOf(batches: seq<seq<Change>>, changes: seq<Change>) {
    && Flatten(batches) == changes && AllWithin(batches, MAX_KAFKA_MESSAGES)
    && |batches| == CeilDiv(|changes|, MAX_KAFKA_MESSAGES)
  }

  /** The call after k pending batches returns the next one; until then position and key have not moved. */
  ghost predicate HandsOut(next: View, genesisTime: int, later: Answers, k: nat, batch: seq<Change>)
    requires k < |next.pending|
  {
    && WorkStep(AfterPops(next, k), genesisTime, later) == (AfterPops(next, k + 1), Ok(batch))
    && AfterPops(next, k).lastExported == next.lastExported
    && AfterPops(next, k).lastPrimaryKey == next.lastPrimaryKey
  }

  lemma FirstBatch(v: View, genesisTime: int, lines: seq<Line>)
    requires v.currentDailySlot.Some? && v.pending == []
    requires |DayChanges(v, genesisTime, lines)| > MAX_KAFKA_MESSAGES
    ensures var changes := DayChanges(v, genesisTime, lines);
            var (next, first) := StartDay(v, genesisTime, lines);
            BatchesOf([first] + next.pending, changes) && next.pending != []
            && next.processingSlot == v.currentDailySlot && next.processingCount == |changes|
  {
    var changes := DayChanges(v, genesisTime, lines);
    SlicesFacts(changes, MAX_KAFKA_MESSAGES);
    var batches := Slices(changes, MAX_KAFKA_MESSAGES);
    assert batches == [batches[0]] + batches[1..];
  }

  /**
   * A day with more changes than fit one batch takes exactly as many calls as batches; they return the
   * changes in order, and only the last call moves position and key: to the day's slot, and by the
   * number of changes.
   */
  lemma DayOfManyBatches(v: View, genesisTime: int, a: Answers, day: View, lines: seq<Line>)
    requires Starts(v, genesisTime, a, day, lines)
    requires |DayChanges(day, genesisTime, lines)| > MAX_KAFKA_MESSAGES
    ensures var changes := DayChanges(day, genesisTime, lines);
            var (next, first) := StartDay(day, genesisTime, lines);
            && WorkStep(v, genesisTime, a) == (next, Ok(first))
            && next.lastExported == v.lastExported && next.lastPrimaryKey == v.lastPrimaryKey
            && BatchesOf([first] + next.pending, changes) && next.pending != []
            && (forall k, later :: 0 <= k < |next.pending| ==> HandsOut(next, genesisTime, later, k, next.pending[k]))
            && AfterPops(next, |next.pending|)
               == next.(pending := [], lastExported := day.currentDailySlot.value,
                        lastPrimaryKey := v.lastPrimaryKey + |changes|,
                        processingSlot := None, processingCount := 0, currentDailySlot := None)
  {
    var (next, first) := StartDay(day, genesisTime, lines);
    FirstBatch(day, genesisTime, lines);
    forall k, later | 0 <= k < |next.pending| ensures HandsOut(next, genesisTime, later, k, next.pending[k]) {
      PendingBatches(next, genesisTime, later, k);
    }
    PendingBatches(next, genesisTime, a, 0);
  }

  lemma {:induction false} PreloadKeepsPositive(lines: seq<Line>, state: State, timestamp: int)
    requires Positive(state)
    ensures Positive(Preloaded(lines, state, timestamp))
  {
    if lines != [] {
      PreloadKeepsPositive(lines[..|lines| - 1], state, timestamp);
    }
  }

  lemma StartKeepsPositive(v: View, genesisTime: int, lines: seq<Line>)
    requires v.currentDailySlot.Some? && v.pending == [] && Positive(v.lastState)
    ensures Positive(StartDay(v, genesisTime, lines).0.lastState)
  {
    StateShowsSnapshot(lines, v.lastState, SlotToTimestamp(genesisTime, v.currentDailySlot.value), 0);
  }

  /** The worker never remembers a balance of zero. */
  lemma WorkKeepsPositive(v: View, genesisTime: int, a: Answers)
    requires Positive(v.lastState)
    ensures Positive(WorkStep(v, genesisTime, a).0.lastState)
  {
    if v.pending == [] {
      if a.balances(v.lastExported).Some? {
        PreloadKeepsPositive(a.balances(v.lastExported).value, v.lastState,
                             SlotToTimestamp(genesisTime, v.lastExported));
      }
      var w := PreloadBalances(v, genesisTime, a);
      if w.Some? && a.head.Some? {
        var day := ChooseDay(w.value, genesisTime, a.head.value);
        if day.currentDailySlot.Some? && a.balances(day.currentDailySlot.value).Some? {
          StartKeepsPositive(day, genesisTime, a.balances(day.currentDailySlot.value).value);
        }
      }
    }
  }

  // ----- A day with at most one batch -----

  /** Nothing is pending, and the day's balances hold nothing new. */
  ghost predicate Stuck(v: View, genesisTime: int, slot: int, lines: seq<Line>) {
    && v.pending == [] && v.preloaded && v.currentDailySlot == Some(slot)
    && DayChanges(v, genesisTime, lines) == []
    && StateAfter(lines, v.lastState, SlotToTimestamp(genesisTime, slot)) == v.lastState
  }

  /** The node gives these balances for the slot, whenever it answers. */
  ghost predicate Settled(a: Answers, slot: int, lines: seq<Line>) {
    a.balances(slot).Some? ==> a.balances(slot).value == lines
  }

  lemma StuckStays(v: View, genesisTime: int, slot: int, lines: seq<Line>, a: Answers)
    requires Stuck(v, genesisTime, slot, lines) && Settled(a, slot, lines)
    ensures var (next, r) := WorkStep(v, genesisTime, a);
            Stuck(next, genesisTime, slot, lines) && (r.Ok? ==> r.value == [])
            && next.lastExported == v.lastExported && next.lastPrimaryKey == v.lastPrimaryKey
  {
  }

  /** The fields after a series of calls. */
  function AfterCalls(v: View, genesisTime: int, answers: seq<Answers>): View {
    if answers == [] then v
    else WorkStep(AfterCalls(v, genesisTime, answers[..|answers| - 1]), genesisTime, answers[|answers| - 1]).0
  }

  lemma {:induction false} StuckForEver(v: View, genesisTime: int, slot: int, lines: seq<Line>, answers: seq<Answers>)
    requires Stuck(v, genesisTime, slot, lines) && forall i :: 0 <= i < |answers| ==> Settled(answers[i], slot, lines)
    ensures var after := AfterCalls(v, genesisTime, answers);
            Stuck(after, genesisTime, slot, lines)
            && after.lastExported == v.lastExported && after.lastPrimaryKey == v.lastPrimaryKey
  {
    if answers != [] {
      StuckForEver(v, genesisTime, slot, lines, answers[..|answers| - 1]);
      StuckStays(AfterCalls(v, genesisTime, answers[..|answers| - 1]), genesisTime, slot, lines,
                 answers[|answers| - 1]);
    }
  }

  /** Changes that fit one batch are handed out at once. */
  lemma OnlyBatch(v: View, genesisTime: int, lines: seq<Line>)
    requires v.currentDailySlot.Some? && v.pending == [] && |DayChanges(v, genesisTime, lines)| <= MAX_KAFKA_MESSAGES
    ensures var (next, first) := StartDay(v, genesisTime, lines);
            && next.pending == [] && first == DayChanges(v, genesisTime, lines)
            && next.preloaded == v.preloaded && next.currentDailySlot == v.currentDailySlot
            && next.lastExported == v.lastExported && next.lastPrimaryKey == v.lastPrimaryKey
            && next.lastState == StateAfter(lines, v.lastState, SlotToTimestamp(genesisTime, v.currentDailySlot.value))
  {
  }

  lemma StartSticks(v: View, genesisTime: int, lines: seq<Line>)
    requires v.currentDailySlot.Some? && v.pending == [] && |DayChanges(v, genesisTime, lines)| <= MAX_KAFKA_MESSAGES
    requires v.preloaded && NoTwice(lines) && Positive(v.lastState)
    ensures Stuck(StartDay(v, genesisTime, lines).0, genesisTime, v.currentDailySlot.value, lines)
  {
    var slot := v.currentDailySlot.value;
    OnlyBatch(v, genesisTime, lines);
    SecondLookFindsNothing(lines, v.lastState, slot, SlotToTimestamp(genesisTime, slot),
                           SlotToTimestamp(genesisTime, slot));
  }

  lemma StartsPreloaded(v: View, genesisTime: int, a: Answers, day: View, lines: seq<Line>)
    requires Starts(v, genesisTime, a, day, lines)
    ensures day.preloaded && day.pending == []
    ensures day.lastExported == v.lastExported && day.lastPrimaryKey == v.lastPrimaryKey
    ensures var (next, first) := StartDay(day, genesisTime, lines);
            WorkStep(v, genesisTime, a) == (next, Ok(first))
  {
  }

  /**
   * A day whose changes fit one batch is exported by the first call, but never completed: no number of
   * later calls moves the position or the key, and none returns anything.
   */
  lemma DayOfOneBatchNeverEnds(v: View, genesisTime: int, a: Answers, day: View, lines: seq<Line>, later: seq<Answers>)
    requires Starts(v, genesisTime, a, day, lines)
    requires |DayChanges(day, genesisTime, lines)| <= MAX_KAFKA_MESSAGES
    requires NoTwice(lines) && Positive(day.lastState)
    requires forall i :: 0 <= i < |later| ==> Settled(later[i], day.currentDailySlot.value, lines)
    ensures var (next, first) := StartDay(day, genesisTime, lines);
            && WorkStep(v, genesisTime, a) == (next, Ok(first))
            && first == DayChanges(day, genesisTime, lines)
            && AfterCalls(next, genesisTime, later).lastExported == v.lastExported
            && AfterCalls(next, genesisTime, later).lastPrimaryKey == v.lastPrimaryKey
            && Stuck(AfterCalls(next, genesisTime, later), genesisTime, day.currentDailySlot.value, lines)
  {
    StartsPreloaded(v, genesisTime, a, day, lines);
    OnlyBatch(day, genesisTime, lines);
    StartSticks(day, genesisTime, lines);
    StuckForEver(StartDay(day, genesisTime, lines).0, genesisTime, day.currentDailySlot.value, lines, later);
  }
}

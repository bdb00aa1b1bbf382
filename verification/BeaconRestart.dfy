/** A beacon worker that is restarted exports what it would have exported anyway. */
module BeaconRestart {
  import opened Common
  import opened BeaconDays
  import opened BeaconBalances
  import opened BeaconWorkers

  predicate SameBatches(a: seq<seq<Change>>, b: seq<seq<Change>>) {
    |a| == |b| && forall i :: 0 <= i < |a| ==> SameChanges(a[i], b[i])
  }

  predicate SameResult(r: Result<seq<Change>>, q: Result<seq<Change>>) {
    if r.Ok? then q.Ok? && SameChanges(r.value, q.value) else r == q
  }

  /** Two workers that differ at most in when they have seen the balances they know. */
  ghost predicate Alike(v: View, w: View) {
    && v == w.(lastState := v.lastState, pending := v.pending)
    && SameBalances(v.lastState, w.lastState)
    && SameBatches(v.pending, w.pending)
  }

  lemma {:induction false} SlicesAlike(a: seq<Change>, b: seq<Change>, size: int)
    requires size >= 1 && SameChanges(a, b)
    ensures SameBatches(Slices(a, size), Slices(b, size))
    decreases |a|
  {
    if |a| > size {
      assert SameChanges(a[..size], b[..size]) && SameChanges(a[size..], b[size..]);
      SlicesAlike(a[size..], b[size..], size);
    }
  }

  lemma StartAlike(v: View, w: View, genesisTime: int, lines: seq<Line>)
    requires Alike(v, w) && v.pending == [] && v.currentDailySlot.Some?
    ensures var (v', first), (w', other) := StartDay(v, genesisTime, lines), StartDay(w, genesisTime, lines);
            Alike(v', w') && SameChanges(first, other)
  {
    var slot := v.currentDailySlot.value;
    SameFromSameBalances(lines, v.lastState, w.lastState, slot, SlotToTimestamp(genesisTime, slot));
    SlicesAlike(DayChanges(v, genesisTime, lines), DayChanges(w, genesisTime, lines), MAX_KAFKA_MESSAGES);
  }

  lemma PopAlike(v: View, w: View)
    requires Alike(v, w) && v.pending != []
    ensures Alike(PopBatch(v), PopBatch(w)) && SameChanges(v.pending[0], w.pending[0])
  {
  }

  /** Given the same answers, workers alike return the same and stay alike. */
  lemma WorkAlike(v: View, w: View, genesisTime: int, a: Answers)
    requires Alike(v, w) && v.preloaded
    ensures var (v', r), (w', q) := WorkStep(v, genesisTime, a), WorkStep(w, genesisTime, a);
            Alike(v', w') && v'.preloaded && SameResult(r, q)
  {
    if v.pending != [] {
      PopAlike(v, w);
    } else if a.head.Some? {
      var day, other := ChooseDay(v, genesisTime, a.head.value), ChooseDay(w, genesisTime, a.head.value);
      if day.currentDailySlot.Some? && a.balances(day.currentDailySlot.value).Some? {
        StartAlike(day, other, genesisTime, a.balances(day.currentDailySlot.value).value);
      }
    }
  }

  /** What a series of calls returns. */
  function Returns(v: View, genesisTime: int, answers: seq<Answers>): (r: seq<Result<seq<Change>>>)
    ensures |r| == |answers|
    decreases |answers|
  {
    if answers == [] then []
    else
      var (next, r) := WorkStep(v, genesisTime, answers[0]);
      [r] + Returns(next, genesisTime, answers[1..])
  }

  predicate SameResults(rs: seq<Result<seq<Change>>>, qs: seq<Result<seq<Change>>>) {
    |rs| == |qs| && forall i :: 0 <= i < |rs| ==> SameResult(rs[i], qs[i])
  }

  lemma {:induction false} RunsAlike(v: View, w: View, genesisTime: int, answers: seq<Answers>)
    requires Alike(v, w) && v.preloaded
    ensures SameResults(Returns(v, genesisTime, answers), Returns(w, genesisTime, answers))
    decreases |answers|
  {
    if answers != [] {
      WorkAlike(v, w, genesisTime, answers[0]);
      RunsAlike(WorkStep(v, genesisTime, answers[0]).0, WorkStep(w, genesisTime, answers[0]).0, genesisTime,
                answers[1..]);
    }
  }

  /** A worker between days: the last one, of these balances, is exported and its position saved. */
  ghost predicate BetweenDays(v: View, before: State, lines: seq<Line>, timestamp: int) {
    && v.preloaded && v.pending == [] && v.currentDailySlot.None? && v.processingSlot.None? && v.processingCount == 0
    && v.lastExported > 0
    && v.lastState == StateAfter(lines, before, timestamp)
    && NoTwice(lines) && NoneDropped(before, lines) && Positive(before)
  }

  /** The last call of a day with several batches leaves the worker between days. */
  lemma DayEndsBetweenDays(v: View, genesisTime: int, a: Answers, day: View, lines: seq<Line>)
    requires Starts(v, genesisTime, a, day, lines) && day.currentDailySlot.value > 0
    requires |DayChanges(day, genesisTime, lines)| > MAX_KAFKA_MESSAGES
    requires NoTwice(lines) && NoneDropped(day.lastState, lines) && Positive(day.lastState)
    ensures var next := StartDay(day, genesisTime, lines).0;
            BetweenDays(AfterPops(next, |next.pending|), day.lastState, lines,
                        SlotToTimestamp(genesisTime, day.currentDailySlot.value))
  {
    DayOfManyBatches(v, genesisTime, a, day, lines);
  }

  /** What a new process starts from. */
  function Restarted(v: View): View {
    View(map[], false, None, [], None, 0, v.lastExported, v.lastPrimaryKey)
  }

  /**
   * Crash between days and restart from the saved position: whatever the node answers from then on, the new
   * process returns call by call what the old one would have, but for the times of the old balances.
   */
  lemma RestartContinues(v: View, before: State, lines: seq<Line>, timestamp: int, genesisTime: int,
                         answers: seq<Answers>)
    requires BetweenDays(v, before, lines, timestamp) && answers != []
    requires answers[0].balances(v.lastExported) == Some(lines)
    ensures SameResults(Returns(v, genesisTime, answers), Returns(Restarted(v), genesisTime, answers))
  {
    var a, restarted := answers[0], Restarted(v);
    var loaded := PreloadBalances(restarted, genesisTime, a).value;
    SnapshotDeterminesState(lines, before, timestamp, SlotToTimestamp(genesisTime, v.lastExported));
    assert Alike(v, loaded);
    assert WorkStep(restarted, genesisTime, a) == WorkStep(loaded, genesisTime, a);
    RunsAlike(v, loaded, genesisTime, answers);
  }

  // ----- A crash while batches of a day are pending -----

  lemma {:induction false} PendingReturned(next: View, genesisTime: int, k: nat, answers: seq<Answers>, j: nat)
    requires next.processingSlot.Some? && k + j < |next.pending| && j < |answers|
    ensures Returns(AfterPops(next, k), genesisTime, answers)[j] == Ok(next.pending[k + j])
    decreases j
  {
    PendingBatches(next, genesisTime, answers[0], k);
    if j > 0 {
      PendingReturned(next, genesisTime, k + 1, answers[1..], j - 1);
    }
  }

  /** A day with several batches is returned batch by batch. */
  lemma DayReturned(v: View, genesisTime: int, day: View, lines: seq<Line>, answers: seq<Answers>, i: nat)
    requires answers != [] && Starts(v, genesisTime, answers[0], day, lines)
    requires |DayChanges(day, genesisTime, lines)| > MAX_KAFKA_MESSAGES
    requires var next := StartDay(day, genesisTime, lines).0;
             i <= |next.pending| && i < |answers|
    ensures var (next, first) := StartDay(day, genesisTime, lines);
            Returns(v, genesisTime, answers)[i] == Ok(([first] + next.pending)[i])
  {
    var next := StartDay(day, genesisTime, lines).0;
    DayOfManyBatches(v, genesisTime, answers[0], day, lines);
    if i > 0 {
      PendingReturned(next, genesisTime, 0, answers[1..], i - 1);
    }
  }

  /**
   * Wherever in a day the process stops before the day's last batch is taken, the new one starts from the day before.
   */
  lemma StoppedWithinDay(v: View, genesisTime: int, a: Answers, day: View, lines: seq<Line>, k: nat)
    requires Starts(v, genesisTime, a, day, lines) && |DayChanges(day, genesisTime, lines)| > MAX_KAFKA_MESSAGES
    requires k < |StartDay(day, genesisTime, lines).0.pending|
    ensures Restarted(AfterPops(StartDay(day, genesisTime, lines).0, k)) == Restarted(v)
  {
    var next := StartDay(day, genesisTime, lines).0;
    DayOfManyBatches(v, genesisTime, a, day, lines);
    assert HandsOut(next, genesisTime, a, k, next.pending[k]);
  }

  /**
   * Crash after any number of batches but the last: the new process, told the same balances, returns all
   * batches of the day once more, from the first, the same but for the times of the old balances, and then
   * goes on as the old one would have.
   */
  lemma CrashWithinDayRepeatsIt(v: View, before: State, saved: seq<Line>, timestamp: int, genesisTime: int, a: Answers,
                                day: View, lines: seq<Line>, k: nat, answers: seq<Answers>)
    requires BetweenDays(v, before, saved, timestamp)
    requires Starts(v, genesisTime, a, day, lines) && |DayChanges(day, genesisTime, lines)| > MAX_KAFKA_MESSAGES
    requires k < |StartDay(day, genesisTime, lines).0.pending|
    requires answers != [] && answers[0].balances(v.lastExported) == Some(saved)
    requires Starts(v, genesisTime, answers[0], day, lines)
    ensures var (next, first) := StartDay(day, genesisTime, lines);
            var again := Returns(Restarted(AfterPops(next, k)), genesisTime, answers);
            && SameResults(Returns(v, genesisTime, answers), again)
            && forall i :: 0 <= i <= |next.pending| && i < |answers| ==>
                 SameResult(Ok(([first] + next.pending)[i]), again[i])
  {
    var (next, first) := StartDay(day, genesisTime, lines);
    StoppedWithinDay(v, genesisTime, a, day, lines, k);
    RestartContinues(v, before, saved, timestamp, genesisTime, answers);
    forall i | 0 <= i <= |next.pending| && i < |answers|
      ensures Returns(v, genesisTime, answers)[i] == Ok(([first] + next.pending)[i])
    {
      DayReturned(v, genesisTime, day, lines, answers, i);
    }
  }
}

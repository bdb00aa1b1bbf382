/**
 * The exporter's run as a state machine: read the position, work, begin, produce, commit or abort,
 * save the position, and a crash between any two steps (main.ts, lib/kafka_storage.ts,
 * lib/worker_base.ts, eth/lib/next_interval_calculator.ts).
 */
module ExportProtocol {
  import opened Common

  datatype Event = Event(block: int, payload: int)

  /** The settings, and the chain below the confirmed head: the events of each block. */
  datatype Config = Config(startBlock: int, blockInterval: int, confirmations: int, chain: int -> seq<Event>)

  ghost predicate ValidConfig(c: Config) {
    && c.blockInterval >= 1
    && forall b: int, e :: e in c.chain(b) ==> e.block == b
  }

  datatype Interval = Interval(fromBlock: int, toBlock: int)

  function NextIntervalCalculator(lastExportedBlock: int, blockInterval: int, lastConfirmedBlock: int): Interval {
    Interval(lastExportedBlock + 1, Min(lastExportedBlock + blockInterval, lastConfirmedBlock))
  }

  datatype WorkerContext = WorkNoSleep | WorkSleep | NoWorkSleep

  /** The context and the confirmed block after asking the node, which happens only when caught up. */
  function AnalyzeContext(lastExportedBlock: int, lastConfirmedBlock: int, newConfirmed: int): (WorkerContext, int) {
    if lastExportedBlock < lastConfirmedBlock then (WorkNoSleep, lastConfirmedBlock)
    else if newConfirmed > lastConfirmedBlock then (WorkSleep, newConfirmed)
    else (NoWorkSleep, lastConfirmedBlock)
  }

  function EventsOf(c: Config, fromBlock: int, toBlock: int): seq<Event>
    decreases toBlock - fromBlock
  {
    if fromBlock > toBlock then [] else c.chain(fromBlock) + EventsOf(c, fromBlock + 1, toBlock)
  }

  /**
   * Where the process stands. From Worked on, `fromBlock` to `lastExported` is the interval being
   * exported, and the worker's position is already at its end.
   */
  datatype Proc =
    | Down
    | Connected(lastConfirmed: int)
    | Restored(lastConfirmed: int, lastExported: int)
    | Idle(lastConfirmed: int, lastExported: int)
    | Worked(lastConfirmed: int, lastExported: int, fromBlock: int)
    | InTransaction(lastConfirmed: int, lastExported: int, fromBlock: int, produced: nat)
    | Stored(lastConfirmed: int, lastExported: int, fromBlock: int)

  /**
   * `log` is what Kafka committed, `saved` what Zookeeper holds. The rest is history: the intervals
   * whose export finished, the heads the node reported, the crashes that hit between a commit and the
   * save of its position, the position reads that failed, and the work calls that moved the position
   * back.
   */
  datatype State = State(proc: Proc, log: seq<Event>, saved: Option<int>,
                         history: seq<Interval>, heads: seq<int>, lost: nat, readErrors: nat, regressions: nat)

  datatype Step = Boot(head: int) | ReadPosition(readable: bool) | SaveRestored | Work(head: int)
                | Begin | Produce | Commit | Abort | SavePosition | Crash

  function Init(): State {
    State(Down, [], None, [], [], 0, 0, 0)
  }

  function Recorded(history: seq<Interval>, fromBlock: int, toBlock: int): seq<Interval> {
    if fromBlock <= toBlock then history + [Interval(fromBlock, toBlock)] else history
  }

  /** One step; None when the step is not possible where the process stands. */
  function Next(c: Config, s: State, step: Step): Option<State> {
    match (step, s.proc)
    case (Boot(head), Down) =>
      Some(s.(proc := Connected(head - c.confirmations), heads := s.heads + [head]))
    case (ReadPosition(readable), Connected(conf)) =>
      if readable && s.saved.Some? then Some(s.(proc := Restored(conf, s.saved.value)))
      else Some(s.(proc := Restored(conf, c.startBlock),
                   readErrors := s.readErrors + if s.saved.Some? then 1 else 0))
    case (SaveRestored, Restored(conf, last)) =>
      Some(s.(proc := Idle(conf, last), saved := Some(last)))
    case (Work(head), Idle(conf, last)) =>
      var (context, conf') := AnalyzeContext(last, conf, head - c.confirmations);
      var s' := if last < conf then s else s.(heads := s.heads + [head]);
      if context.NoWorkSleep? then Some(s'.(proc := Worked(conf', last, last + 1)))
      else
        var interval := NextIntervalCalculator(last, c.blockInterval, conf');
        Some(s'.(proc := Worked(conf', interval.toBlock, interval.fromBlock),
                 regressions := s'.regressions + if interval.toBlock < last then 1 else 0))
    case (Begin, Worked(conf, last, lo)) =>
      if EventsOf(c, lo, last) == [] then None
      else Some(s.(proc := InTransaction(conf, last, lo, 0)))
    case (Produce, InTransaction(conf, last, lo, n)) =>
      if n < |EventsOf(c, lo, last)| then Some(s.(proc := InTransaction(conf, last, lo, n + 1))) else None
    case (Commit, InTransaction(conf, last, lo, n)) =>
      if n != |EventsOf(c, lo, last)| then None
      else Some(s.(proc := Stored(conf, last, lo), log := s.log + EventsOf(c, lo, last)[..n],
                   history := Recorded(s.history, lo, last)))
    case (Abort, InTransaction(_, _, _, _)) => Some(s.(proc := Down))
    case (SavePosition, Stored(conf, last, _)) => Some(s.(proc := Idle(conf, last), saved := Some(last)))
    case (SavePosition, Worked(conf, last, lo)) =>
      if EventsOf(c, lo, last) != [] then None
      else Some(s.(proc := Idle(conf, last), saved := Some(last), history := Recorded(s.history, lo, last)))
    case (Crash, proc) => Some(s.(proc := Down, lost := s.lost + if proc.Stored? then 1 else 0))
    case (_, _) => None
  }

  /** Where a sequence of steps leads; None when one of them is not possible. */
  function Run(c: Config, s: State, steps: seq<Step>): Option<State> {
    if steps == [] then Some(s)
    else
      var before := Run(c, s, steps[..|steps| - 1]);
      if before.None? then None else Next(c, before.value, steps[|steps| - 1])
  }

  // ----- What every step keeps -----

  ghost predicate Exported(history: seq<Interval>, b: int) {
    exists i :: 0 <= i < |history| && history[i].fromBlock <= b <= history[i].toBlock
  }

  ghost predicate CoveredTo(c: Config, history: seq<Interval>, p: int) {
    forall b :: c.startBlock < b <= p ==> Exported(history, b)
  }

  function LogOf(c: Config, history: seq<Interval>): seq<Event> {
    if history == [] then []
    else
      var last := history[|history| - 1];
      LogOf(c, history[..|history| - 1]) + EventsOf(c, last.fromBlock, last.toBlock)
  }

  ghost predicate Confirmed(c: Config, heads: seq<int>, b: int) {
    exists i :: 0 <= i < |heads| && b <= heads[i] - c.confirmations
  }

  ghost predicate ProcOk(c: Config, s: State) {
    match s.proc
    case Down => true
    case Connected(conf) => Confirmed(c, s.heads, conf)
    case Restored(conf, last) => Confirmed(c, s.heads, conf) && CoveredTo(c, s.history, last)
    case Idle(conf, last) => Confirmed(c, s.heads, conf) && CoveredTo(c, s.history, last) && s.saved == Some(last)
    case Worked(conf, last, lo) => Exporting(c, s, conf, last, lo)
    case InTransaction(conf, last, lo, n) => Exporting(c, s, conf, last, lo) && EventsOf(c, lo, last) != []
    case Stored(conf, last, lo) =>
      Exporting(c, s, conf, last, lo) && lo <= last && CoveredTo(c, s.history, last)
  }

  /** While an interval is exported, it starts just after the saved position and ends at a confirmed block. */
  ghost predicate Exporting(c: Config, s: State, conf: int, last: int, lo: int) {
    && Confirmed(c, s.heads, conf) && last <= lo - 1 + c.blockInterval
    && (lo <= last ==> last <= conf)
    && s.saved == Some(lo - 1) && CoveredTo(c, s.history, lo - 1)
  }

  function Head(c: Config, history: seq<Interval>): int {
    if history == [] then c.startBlock
    else Max(Head(c, history[..|history| - 1]), history[|history| - 1].toBlock)
  }

  /** Recorded intervals are not empty and end at confirmed blocks. */
  ghost predicate AllConfirmed(c: Config, history: seq<Interval>, heads: seq<int>) {
    forall i :: 0 <= i < |history| ==>
      history[i].fromBlock <= history[i].toBlock && Confirmed(c, heads, history[i].toBlock)
  }

  ghost predicate Kept(c: Config, s: State) {
    && s.log == LogOf(c, s.history)
    && AllConfirmed(c, s.history, s.heads)
    && (s.saved.Some? ==> CoveredTo(c, s.history, s.saved.value))
    && CoveredTo(c, s.history, Head(c, s.history))
    && ProcOk(c, s)
  }

  lemma ExportedMore(history: seq<Interval>, lo: int, hi: int, b: int)
    ensures Exported(Recorded(history, lo, hi), b) <==> Exported(history, b) || lo <= b <= hi
  {
    var h := Recorded(history, lo, hi);
    if Exported(history, b) {
      var i :| 0 <= i < |history| && history[i].fromBlock <= b <= history[i].toBlock;
      assert h[i] == history[i];
    }
    if lo <= b <= hi {
      assert h[|history|] == Interval(lo, hi);
    }
  }

  lemma RecordKeeps(c: Config, history: seq<Interval>, lo: int, hi: int)
    requires CoveredTo(c, history, lo - 1) && CoveredTo(c, history, Head(c, history))
    ensures var h := Recorded(history, lo, hi);
            && CoveredTo(c, h, Max(lo - 1, hi)) && CoveredTo(c, h, Head(c, h))
            && LogOf(c, h) == LogOf(c, history) + EventsOf(c, lo, hi)
            && Head(c, h) == (if lo <= hi then Max(Head(c, history), hi) else Head(c, history))
  {
    var h := Recorded(history, lo, hi);
    if lo <= hi {
      assert h[..|h| - 1] == history;
    }
    forall b ensures Exported(h, b) <==> Exported(history, b) || lo <= b <= hi {
      ExportedMore(history, lo, hi, b);
    }
  }

  lemma HeadsMore(c: Config, heads: seq<int>, head: int)
    ensures forall b :: Confirmed(c, heads, b) ==> Confirmed(c, heads + [head], b)
    ensures Confirmed(c, heads + [head], head - c.confirmations)
  {
    forall b | Confirmed(c, heads, b) ensures Confirmed(c, heads + [head], b) {
      var i :| 0 <= i < |heads| && b <= heads[i] - c.confirmations;
      assert (heads + [head])[i] == heads[i];
    }
    assert (heads + [head])[|heads|] == head;
  }

  lemma StepKeeps(c: Config, s: State, step: Step)
    requires ValidConfig(c) && Kept(c, s) && Next(c, s, step).Some?
    ensures Kept(c, Next(c, s, step).value)
  {
    match step
    case Boot(head) => BootKeeps(c, s, head);
    case Work(head) => WorkKeeps(c, s, head);
    case ReadPosition(readable) => ReadKeeps(c, s, readable);
    case Commit => CommitKeeps(c, s);
    case SavePosition =>
      if s.proc.Stored? {
        SaveStoredKeeps(c, s);
      } else {
        SaveWorkedKeeps(c, s);
      }
    case _ => OtherKeeps(c, s, step);
  }

  lemma MoreHeadsKeep(c: Config, history: seq<Interval>, heads: seq<int>, head: int)
    requires AllConfirmed(c, history, heads)
    ensures AllConfirmed(c, history, heads + [head])
  {
    HeadsMore(c, heads, head);
  }

  lemma BootKeeps(c: Config, s: State, head: int)
    requires Kept(c, s) && s.proc.Down?
    ensures Kept(c, Next(c, s, Boot(head)).value)
  {
    HeadsMore(c, s.heads, head);
    MoreHeadsKeep(c, s.history, s.heads, head);
  }

  lemma WorkKeeps(c: Config, s: State, head: int)
    requires ValidConfig(c) && Kept(c, s) && s.proc.Idle?
    ensures Kept(c, Next(c, s, Work(head)).value)
  {
    HeadsMore(c, s.heads, head);
    MoreHeadsKeep(c, s.history, s.heads, head);
  }

  lemma ReadKeeps(c: Config, s: State, readable: bool)
    requires Kept(c, s) && s.proc.Connected?
    ensures Kept(c, Next(c, s, ReadPosition(readable)).value)
  {
    assert CoveredTo(c, s.history, c.startBlock);
  }

  /** The steps that neither record an interval nor ask the node. */
  lemma OtherKeeps(c: Config, s: State, step: Step)
    requires Kept(c, s) && Next(c, s, step).Some?
    requires step.SaveRestored? || step.Begin? || step.Produce? || step.Abort? || step.Crash?
    ensures Kept(c, Next(c, s, step).value)
  {
  }

  lemma ConfirmedMore(c: Config, history: seq<Interval>, heads: seq<int>, lo: int, hi: int)
    requires AllConfirmed(c, history, heads) && (lo <= hi ==> Confirmed(c, heads, hi))
    ensures AllConfirmed(c, Recorded(history, lo, hi), heads)
  {
  }

  lemma ConfirmedBelow(c: Config, heads: seq<int>, conf: int, b: int)
    requires Confirmed(c, heads, conf) && b <= conf
    ensures Confirmed(c, heads, b)
  {
    var i :| 0 <= i < |heads| && conf <= heads[i] - c.confirmations;
  }

  lemma CoveredBelow(c: Config, history: seq<Interval>, p: int, q: int)
    requires CoveredTo(c, history, p) && q <= p
    ensures CoveredTo(c, history, q)
  {
  }

  lemma EventsNeedBlocks(c: Config, lo: int, hi: int)
    ensures EventsOf(c, lo, hi) != [] ==> lo <= hi
  {
  }

  /** An interval finished, whether it went through a transaction or had no events. */
  lemma IntervalKeeps(c: Config, s: State, s': State, conf: int, last: int, lo: int)
    requires Kept(c, s) && Exporting(c, s, conf, last, lo)
    requires s'.history == Recorded(s.history, lo, last) && s'.heads == s.heads
    requires s'.log == s.log + EventsOf(c, lo, last)
    requires s'.saved == s.saved || s'.saved == Some(last)
    requires if s'.saved == s.saved then s'.proc == Stored(conf, last, lo) && lo <= last
             else s'.proc == Idle(conf, last)
    ensures Kept(c, s')
  {
    RecordKeeps(c, s.history, lo, last);
    if lo <= last {
      ConfirmedBelow(c, s.heads, conf, last);
    }
    ConfirmedMore(c, s.history, s.heads, lo, last);
    CoveredBelow(c, s'.history, Max(lo - 1, last), lo - 1);
    CoveredBelow(c, s'.history, Max(lo - 1, last), last);
  }

  lemma CommitKeeps(c: Config, s: State)
    requires Kept(c, s) && Next(c, s, Commit).Some?
    ensures Kept(c, Next(c, s, Commit).value)
  {
    var events := EventsOf(c, s.proc.fromBlock, s.proc.lastExported);
    assert events[..s.proc.produced] == events;
    EventsNeedBlocks(c, s.proc.fromBlock, s.proc.lastExported);
    IntervalKeeps(c, s, Next(c, s, Commit).value, s.proc.lastConfirmed, s.proc.lastExported, s.proc.fromBlock);
  }

  lemma SaveStoredKeeps(c: Config, s: State)
    requires Kept(c, s) && s.proc.Stored?
    ensures Kept(c, Next(c, s, SavePosition).value)
  {
  }

  lemma SaveWorkedKeeps(c: Config, s: State)
    requires Kept(c, s) && s.proc.Worked? && Next(c, s, SavePosition).Some?
    ensures Kept(c, Next(c, s, SavePosition).value)
  {
    var s' := Next(c, s, SavePosition).value;
    var conf, last, lo := s.proc.lastConfirmed, s.proc.lastExported, s.proc.fromBlock;
    assert s.log + EventsOf(c, lo, last) == s.log;
    if s'.saved == s.saved {
      NothingKeeps(c, s, s', conf, last, lo);
    } else {
      IntervalKeeps(c, s, s', conf, last, lo);
    }
  }

  /** Nothing was exported, and the position is where it was. */
  lemma NothingKeeps(c: Config, s: State, s': State, conf: int, last: int, lo: int)
    requires Kept(c, s) && Exporting(c, s, conf, last, lo) && last == lo - 1
    requires s' == s.(proc := Idle(conf, last))
    ensures Kept(c, s')
  {
  }

  lemma {:induction false} RunKeeps(c: Config, steps: seq<Step>)
    requires ValidConfig(c) && Run(c, Init(), steps).Some?
    ensures Kept(c, Run(c, Init(), steps).value)
  {
    if steps != [] {
      RunKeeps(c, steps[..|steps| - 1]);
      StepKeeps(c, Run(c, Init(), steps[..|steps| - 1]).value, steps[|steps| - 1]);
    }
  }

  // ----- Nothing is missing, and nothing is too early -----

  lemma {:induction false} EventsOfBlock(c: Config, lo: int, hi: int, e: Event)
    requires ValidConfig(c)
    ensures e in EventsOf(c, lo, hi) <==> lo <= e.block <= hi && e in c.chain(e.block)
    decreases hi - lo
  {
    if lo <= hi {
      EventsOfBlock(c, lo + 1, hi, e);
    }
  }

  lemma {:induction false} LogOfBlock(c: Config, history: seq<Interval>, e: Event)
    requires ValidConfig(c)
    ensures e in LogOf(c, history) <==> Exported(history, e.block) && e in c.chain(e.block)
  {
    if history != [] {
      var init, last := history[..|history| - 1], history[|history| - 1];
      LogOfBlock(c, init, e);
      EventsOfBlock(c, last.fromBlock, last.toBlock, e);
      if Exported(init, e.block) {
        var i :| 0 <= i < |init| && init[i].fromBlock <= e.block <= init[i].toBlock;
        assert history[i] == init[i];
      }
      if Exported(history, e.block) && !(last.fromBlock <= e.block <= last.toBlock) {
        var i :| 0 <= i < |history| && history[i].fromBlock <= e.block <= history[i].toBlock;
        assert init[i] == history[i];
      }
    }
  }

  /**
   * Over every run, with crashes anywhere and position reads failing anywhere: what the saved position
   * claims is in the log, and what is in the log is an event of the chain that a reported head confirmed.
   */
  lemma NoGapAndNothingUnconfirmed(c: Config, steps: seq<Step>)
    requires ValidConfig(c) && Run(c, Init(), steps).Some?
    ensures var s := Run(c, Init(), steps).value;
            && (s.saved.Some? ==> forall b, e ::
                  c.startBlock < b <= s.saved.value && e in c.chain(b) ==> e in s.log)
            && (forall e :: e in s.log ==> e in c.chain(e.block) && Confirmed(c, s.heads, e.block))
  {
    RunKeeps(c, steps);
    var s := Run(c, Init(), steps).value;
    forall e ensures e in s.log <==> Exported(s.history, e.block) && e in c.chain(e.block) {
      LogOfBlock(c, s.history, e);
    }
    forall e | e in s.log ensures Confirmed(c, s.heads, e.block) {
      var i :| 0 <= i < |s.history| && s.history[i].fromBlock <= e.block <= s.history[i].toBlock;
      var h :| 0 <= h < |s.heads| && s.history[i].toBlock <= s.heads[h] - c.confirmations;
      assert e.block <= s.heads[h] - c.confirmations;
    }
  }

  // ----- Few duplicates -----

  /** How often block b was exported. */
  function Copies(history: seq<Interval>, b: int): nat {
    if history == [] then 0
    else
      var last := history[|history| - 1];
      Copies(history[..|history| - 1], b) + if last.fromBlock <= b <= last.toBlock then 1 else 0
  }

  /** How many block copies were exported in all. */
  function Slots(history: seq<Interval>): int {
    if history == [] then 0
    else
      var last := history[|history| - 1];
      Slots(history[..|history| - 1]) + last.toBlock - last.fromBlock + 1
  }

  /** The saved position, or the configured start when nothing was ever saved. */
  function Base(c: Config, s: State): int {
    if s.saved.Some? then s.saved.value else c.startBlock
  }

  /** The position the process will save next, or has saved. */
  function Position(c: Config, s: State): int {
    if s.proc.Stored? then s.proc.lastExported else Base(c, s)
  }

  /**
   * What is exported again because of a step: the blocks whose position a crash lost, how far a step moved
   * the position back, and whether it did.
   */
  datatype Toll = Toll(lostBlocks: int, setback: int, retreats: int)

  function MovedBack(n: int): Toll {
    Toll(0, n, if n > 0 then 1 else 0)
  }

  function TollAt(c: Config, s: State, step: Step): Toll {
    match (step, s.proc)
    case (Crash, Stored(_, last, lo)) => Toll(last - lo + 1, 0, 0)
    case (SaveRestored, Restored(_, last)) => MovedBack(Position(c, s) - last)
    case (SavePosition, Worked(_, last, lo)) => MovedBack(Max(0, lo - 1 - last))
    case (_, _) => Toll(0, 0, 0)
  }

  /** A step takes a toll of one retreat exactly when it sets the position back, and then it is a save. */
  lemma RetreatsIff(c: Config, s: State, step: Step)
    ensures TollAt(c, s, step).retreats == if TollAt(c, s, step).setback > 0 then 1 else 0
    ensures TollAt(c, s, step).retreats > 0 ==> step.SaveRestored? || step.SavePosition?
  {
  }

  function Plus(t: Toll, u: Toll): Toll {
    Toll(t.lostBlocks + u.lostBlocks, t.setback + u.setback, t.retreats + u.retreats)
  }

  /** The toll of a run from the initial state. */
  function TollOf(c: Config, steps: seq<Step>): Toll {
    if steps == [] then Toll(0, 0, 0)
    else
      var init := steps[..|steps| - 1];
      var before := Run(c, Init(), init);
      if before.None? then TollOf(c, init) else Plus(TollOf(c, init), TollAt(c, before.value, steps[|steps| - 1]))
  }

  /** The run had no failed position read, and no work call that moved the position back. */
  predicate Steady(s: State) {
    s.readErrors == 0 && s.regressions == 0
  }

  ghost predicate AccountedAt(c: Config, history: seq<Interval>, base: int, p: int, lost: nat, t: Toll) {
    var head := Head(c, history);
    && Slots(history) == p - c.startBlock + t.lostBlocks + t.setback
    && 0 <= t.lostBlocks <= lost * c.blockInterval
    && 0 <= t.setback && 0 <= t.retreats && c.startBlock <= base + t.setback
    && c.startBlock <= head && p <= head <= base + t.setback + c.blockInterval
    && forall b :: Copies(history, b) <= lost + t.retreats + if b <= p then 1 else 0
  }

  /** While all is steady nothing is set back, and nothing about to be saved is behind the position. */
  ghost predicate SteadyAt(c: Config, s: State, t: Toll) {
    && (Steady(s) ==> t.setback == 0 && t.retreats == 0)
    && (s.proc.Restored? ==>
          s.proc.lastExported == Base(c, s) || (s.readErrors > 0 && s.proc.lastExported == c.startBlock))
    && (s.regressions == 0 && (s.proc.Worked? || s.proc.InTransaction?) ==> s.proc.fromBlock - 1 <= s.proc.lastExported)
  }

  ghost predicate Accounted(c: Config, s: State, t: Toll) {
    AccountedAt(c, s.history, Base(c, s), Position(c, s), s.lost, t) && SteadyAt(c, s, t)
  }

  /** An interval finished right after the position. */
  lemma AccountExtend(c: Config, history: seq<Interval>, p: int, hi: int, lost: nat, t: Toll)
    requires AccountedAt(c, history, p, p, lost, t) && p < hi <= p + c.blockInterval
    ensures AccountedAt(c, Recorded(history, p + 1, hi), p, hi, lost, t)
  {
    var h := Recorded(history, p + 1, hi);
    assert h[..|h| - 1] == history && h[|h| - 1] == Interval(p + 1, hi);
    forall b ensures Copies(h, b) == Copies(history, b) + if p + 1 <= b <= hi then 1 else 0 {
    }
  }

  lemma AccountSettle(c: Config, history: seq<Interval>, base: int, p: int, lost: nat, t: Toll)
    requires c.blockInterval >= 0 && base <= p && AccountedAt(c, history, base, p, lost, t)
    ensures AccountedAt(c, history, p, p, lost, t)
  {
  }

  lemma AccountLose(c: Config, history: seq<Interval>, base: int, p: int, lost: nat, t: Toll)
    requires base < p <= base + c.blockInterval && AccountedAt(c, history, base, p, lost, t)
    ensures AccountedAt(c, history, base, base, lost + 1, Plus(t, Toll(p - base, 0, 0)))
  {
    assert (lost + 1) * c.blockInterval == lost * c.blockInterval + c.blockInterval;
  }

  /** The position moves to q, back or, from below the start, up to it. */
  lemma AccountMove(c: Config, history: seq<Interval>, p: int, q: int, lost: nat, t: Toll)
    requires AccountedAt(c, history, p, p, lost, t) && (q <= p || q == c.startBlock)
    ensures AccountedAt(c, history, q, q, lost, Plus(t, MovedBack(p - q)))
  {
  }

  /** The position moves to the end of an interval that is right after it, or back. */
  lemma AccountEmpty(c: Config, history: seq<Interval>, p: int, last: int, lost: nat, t: Toll)
    requires AccountedAt(c, history, p, p, lost, t) && c.blockInterval >= 0 && last <= p + c.blockInterval
    ensures AccountedAt(c, Recorded(history, p + 1, last), last, last, lost, Plus(t, MovedBack(Max(0, p - last))))
  {
    if last <= p {
      AccountMove(c, history, p, last, lost, t);
    } else {
      assert Plus(t, MovedBack(Max(0, p - last))) == t;
      AccountExtend(c, history, p, last, lost, t);
      AccountSettle(c, Recorded(history, p + 1, last), p, last, lost, t);
    }
  }

  lemma StepAccounts(c: Config, s: State, t: Toll, step: Step)
    requires ValidConfig(c) && Kept(c, s) && Accounted(c, s, t) && Next(c, s, step).Some?
    ensures Accounted(c, Next(c, s, step).value, Plus(t, TollAt(c, s, step)))
  {
    InFlight(c, s);
    match step
    case Commit => CommitAccounts(c, s, t);
    case SavePosition =>
      if s.proc.Stored? {
        SaveStoredAccounts(c, s, t);
      } else {
        SaveWorkedAccounts(c, s, t);
      }
    case SaveRestored => RestoreAccounts(c, s, t);
    case Crash => CrashAccounts(c, s, t);
    case _ => OtherAccounts(c, s, t, step);
  }

  /** Where an interval under way stands to the saved position. */
  predicate FollowsSaved(c: Config, s: State) {
    && (s.proc.Worked? || s.proc.InTransaction? || s.proc.Stored? ==>
          s.saved == Some(s.proc.fromBlock - 1) && s.proc.lastExported <= s.proc.fromBlock - 1 + c.blockInterval)
    && (s.proc.InTransaction? || s.proc.Stored? ==> s.proc.fromBlock <= s.proc.lastExported)
    && (s.proc.Idle? ==> s.saved == Some(s.proc.lastExported))
  }

  lemma InFlight(c: Config, s: State)
    requires Kept(c, s)
    ensures FollowsSaved(c, s)
  {
    if s.proc.InTransaction? {
      EventsNeedBlocks(c, s.proc.fromBlock, s.proc.lastExported);
    }
  }

  /** What the account reads of a state. */
  predicate SameAccount(s: State, s': State) {
    && s'.saved == s.saved && s'.history == s.history && s'.lost == s.lost
    && s'.readErrors == s.readErrors && s'.regressions == s.regressions
  }

  lemma CommitAccounts(c: Config, s: State, t: Toll)
    requires FollowsSaved(c, s) && Accounted(c, s, t) && Next(c, s, Commit).Some?
    ensures Accounted(c, Next(c, s, Commit).value, Plus(t, TollAt(c, s, Commit)))
  {
    var s' := Next(c, s, Commit).value;
    var h := Recorded(s.history, s.proc.fromBlock, s.proc.lastExported);
    assert SameAccount(s.(history := h), s');
    StoredAccounts(c, s, s', t);
  }

  lemma StoredAccounts(c: Config, s: State, s': State, t: Toll)
    requires FollowsSaved(c, s) && Accounted(c, s, t) && s.proc.InTransaction?
    requires var (lo, last) := (s.proc.fromBlock, s.proc.lastExported);
             && s'.proc == Stored(s.proc.lastConfirmed, last, lo)
             && SameAccount(s.(history := Recorded(s.history, lo, last)), s')
    ensures Accounted(c, s', Plus(t, Toll(0, 0, 0)))
  {
    assert Plus(t, Toll(0, 0, 0)) == t;
    AccountExtend(c, s.history, Base(c, s), s.proc.lastExported, s.lost, t);
  }

  lemma CrashAccounts(c: Config, s: State, t: Toll)
    requires FollowsSaved(c, s) && Accounted(c, s, t)
    ensures Accounted(c, Next(c, s, Crash).value, Plus(t, TollAt(c, s, Crash)))
  {
    if s.proc.Stored? {
      AccountLose(c, s.history, Base(c, s), Position(c, s), s.lost, t);
    }
  }

  lemma RestoreAccounts(c: Config, s: State, t: Toll)
    requires Accounted(c, s, t) && Next(c, s, SaveRestored).Some?
    ensures Accounted(c, Next(c, s, SaveRestored).value, Plus(t, TollAt(c, s, SaveRestored)))
  {
    AccountMove(c, s.history, Base(c, s), s.proc.lastExported, s.lost, t);
  }

  /** The steps that neither finish an interval nor save a position. */
  lemma OtherAccounts(c: Config, s: State, t: Toll, step: Step)
    requires FollowsSaved(c, s) && Accounted(c, s, t) && Next(c, s, step).Some? && c.blockInterval >= 1
    requires !step.Commit? && !step.SavePosition? && !step.SaveRestored? && !step.Crash?
    ensures Accounted(c, Next(c, s, step).value, Plus(t, TollAt(c, s, step)))
  {
    var s' := Next(c, s, step).value;
    assert SameAccount(s.(readErrors := s'.readErrors, regressions := s'.regressions), s') && !s'.proc.Stored?;
    assert Plus(t, Toll(0, 0, 0)) == t;
  }

  lemma SaveStoredAccounts(c: Config, s: State, t: Toll)
    requires c.blockInterval >= 0 && FollowsSaved(c, s) && Accounted(c, s, t) && s.proc.Stored?
    ensures Accounted(c, Next(c, s, SavePosition).value, Plus(t, TollAt(c, s, SavePosition)))
  {
    assert Plus(t, Toll(0, 0, 0)) == t;
    AccountSettle(c, s.history, Base(c, s), s.proc.lastExported, s.lost, t);
  }

  lemma SaveWorkedAccounts(c: Config, s: State, t: Toll)
    requires c.blockInterval >= 0 && FollowsSaved(c, s) && Accounted(c, s, t) && s.proc.Worked?
    requires Next(c, s, SavePosition).Some?
    ensures Accounted(c, Next(c, s, SavePosition).value, Plus(t, TollAt(c, s, SavePosition)))
  {
    var s' := Next(c, s, SavePosition).value;
    var h := Recorded(s.history, s.proc.fromBlock, s.proc.lastExported);
    assert SameAccount(s.(saved := Some(s.proc.lastExported), history := h), s');
    EmptyIntervalAccounts(c, s, s', t);
  }

  lemma EmptyIntervalAccounts(c: Config, s: State, s': State, t: Toll)
    requires c.blockInterval >= 0 && FollowsSaved(c, s) && Accounted(c, s, t) && s.proc.Worked? && s'.proc.Idle?
    requires var (lo, last) := (s.proc.fromBlock, s.proc.lastExported);
             SameAccount(s.(saved := Some(last), history := Recorded(s.history, lo, last)), s')
    ensures Accounted(c, s', Plus(t, TollAt(c, s, SavePosition)))
  {
    var p, last := Base(c, s), s.proc.lastExported;
    assert s.proc.fromBlock == p + 1 && Position(c, s) == p;
    assert Base(c, s') == last && Position(c, s') == last && s'.history == Recorded(s.history, p + 1, last);
    AccountEmpty(c, s.history, p, last, s.lost, t);
    EmptyIntervalToll(c, s, s', t, p, last);
  }

  lemma EmptyIntervalToll(c: Config, s: State, s': State, t: Toll, p: int, last: int)
    requires s.proc.Worked? && s.proc.fromBlock == p + 1 && s.proc.lastExported == last && SteadyAt(c, s, t)
    requires s'.proc.Idle? && s'.readErrors == s.readErrors && s'.regressions == s.regressions
    ensures TollAt(c, s, SavePosition) == MovedBack(Max(0, p - last))
    ensures SteadyAt(c, s', Plus(t, MovedBack(Max(0, p - last))))
  {
  }

  lemma {:induction false} RunAccounts(c: Config, steps: seq<Step>)
    requires ValidConfig(c) && Run(c, Init(), steps).Some?
    ensures Accounted(c, Run(c, Init(), steps).value, TollOf(c, steps))
  {
    if steps != [] {
      RunAccounts(c, steps[..|steps| - 1]);
      RunKeeps(c, steps[..|steps| - 1]);
      StepAccounts(c, Run(c, Init(), steps[..|steps| - 1]).value, TollOf(c, steps[..|steps| - 1]), steps[|steps| - 1]);
    }
  }

  function CountOf(log: seq<Event>, e: Event): nat {
    multiset(log)[e]
  }

  lemma {:induction false} EventsOfCount(c: Config, lo: int, hi: int, e: Event)
    requires ValidConfig(c)
    ensures CountOf(EventsOf(c, lo, hi), e) == (if lo <= e.block <= hi then CountOf(c.chain(e.block), e) else 0)
    decreases hi - lo
  {
    if lo <= hi {
      EventsOfCount(c, lo + 1, hi, e);
      if e in c.chain(lo) {
        assert e.block == lo;
      }
    }
  }

  lemma {:induction false} LogCount(c: Config, history: seq<Interval>, e: Event)
    requires ValidConfig(c)
    ensures CountOf(LogOf(c, history), e) == Copies(history, e.block) * CountOf(c.chain(e.block), e)
  {
    if history != [] {
      var init, last := history[..|history| - 1], history[|history| - 1];
      LogCount(c, init, e);
      EventsOfCount(c, last.fromBlock, last.toBlock, e);
      var n := CountOf(c.chain(e.block), e);
      assert (Copies(init, e.block) + 1) * n == Copies(init, e.block) * n + n;
    }
  }

  lemma CountBound(c: Config, s: State, t: Toll, e: Event)
    requires ValidConfig(c) && Kept(c, s) && Accounted(c, s, t)
    ensures CountOf(s.log, e) <= (s.lost + t.retreats + 1) * CountOf(c.chain(e.block), e)
  {
    LogCount(c, s.history, e);
    Scaled(Copies(s.history, e.block), s.lost + t.retreats + 1, CountOf(c.chain(e.block), e));
  }

  /** Block copies beyond one for each block between the start and the committed head. */
  function Duplicates(c: Config, s: State): int {
    Slots(s.history) - (Head(c, s.history) - c.startBlock)
  }

  /**
   * The exact number of duplicated block copies, and bounds on what it is made of: at most an interval for
   * each lost save, and whatever the position was set back. The committed head is at most an interval and
   * the setback past the position, and an event repeats at most once for each lost save and each retreat.
   */
  ghost predicate DuplicatesAreTolled(c: Config, s: State, t: Toll) {
    && Duplicates(c, s) == t.lostBlocks + t.setback - (Head(c, s.history) - Position(c, s))
    && 0 <= t.lostBlocks <= s.lost * c.blockInterval && 0 <= t.setback
    && Position(c, s) <= Head(c, s.history) <= Base(c, s) + c.blockInterval + t.setback
    && CoveredTo(c, s.history, Head(c, s.history))
    && forall e :: CountOf(s.log, e) <= (s.lost + t.retreats + 1) * CountOf(c.chain(e.block), e)
  }

  lemma AccountedIsTolled(c: Config, s: State, t: Toll)
    requires ValidConfig(c) && Kept(c, s) && Accounted(c, s, t)
    ensures DuplicatesAreTolled(c, s, t)
  {
    forall e ensures CountOf(s.log, e) <= (s.lost + t.retreats + 1) * CountOf(c.chain(e.block), e) {
      CountBound(c, s, t, e);
    }
  }

  /**
   * Over every run whatever, duplicates are exactly the lost blocks and the setback, less what the committed
   * head is ahead of the position. So they number at most lost x BLOCK_INTERVAL and the setback.
   */
  lemma DuplicatesAreExactly(c: Config, steps: seq<Step>)
    requires ValidConfig(c) && Run(c, Init(), steps).Some?
    ensures var s, t := Run(c, Init(), steps).value, TollOf(c, steps);
            && DuplicatesAreTolled(c, s, t)
            && Duplicates(c, s) <= s.lost * c.blockInterval + t.setback
  {
    RunKeeps(c, steps);
    RunAccounts(c, steps);
    AccountedIsTolled(c, Run(c, Init(), steps).value, TollOf(c, steps));
  }

  /**
   * The committed head is at most one interval past the position, at most lost x BLOCK_INTERVAL block
   * copies are duplicates, and no event is in the log more than lost + 1 times as often as in the chain.
   */
  ghost predicate FewDuplicates(c: Config, s: State) {
    && Head(c, s.history) <= Base(c, s) + c.blockInterval
    && Duplicates(c, s) <= s.lost * c.blockInterval
    && CoveredTo(c, s.history, Head(c, s.history))
    && forall e :: CountOf(s.log, e) <= (s.lost + 1) * CountOf(c.chain(e.block), e)
  }

  /** Over every steady run, only crashes between a commit and the save of its position duplicate anything. */
  lemma DuplicatesAreBounded(c: Config, steps: seq<Step>)
    requires ValidConfig(c) && Run(c, Init(), steps).Some? && Steady(Run(c, Init(), steps).value)
    ensures TollOf(c, steps).setback == 0
    ensures FewDuplicates(c, Run(c, Init(), steps).value)
  {
    RunKeeps(c, steps);
    RunAccounts(c, steps);
    SteadyHasFewDuplicates(c, Run(c, Init(), steps).value, TollOf(c, steps));
  }

  lemma SteadyHasFewDuplicates(c: Config, s: State, t: Toll)
    requires ValidConfig(c) && Kept(c, s) && Accounted(c, s, t) && Steady(s)
    ensures t.setback == 0 && FewDuplicates(c, s)
  {
    AccountedIsTolled(c, s, t);
    assert s.lost + t.retreats + 1 == s.lost + 1;
  }

  lemma Scaled(a: nat, b: nat, n: nat)
    requires a <= b
    ensures a * n <= b * n
  {
    assert b * n == a * n + (b - a) * n;
  }

  // ----- When the position goes back -----

  /**
   * A work call moves the position back exactly when the worker has caught up with the confirmed block
   * it knows, and the node, asked again, reports a newer one that is still below the position.
   */
  lemma WorkMovesBackIff(c: Config, s: State, head: int)
    requires ValidConfig(c) && s.proc.Idle?
    ensures var s' := Next(c, s, Work(head)).value;
            && (s'.proc.lastExported < s.proc.lastExported <==>
                s.proc.lastConfirmed < head - c.confirmations < s.proc.lastExported)
            && s'.regressions == s.regressions + if s'.proc.lastExported < s.proc.lastExported then 1 else 0
  {
  }

  /** A restart moves the position back exactly when it cannot read a saved position that is past the start. */
  lemma RestartMovesBackIff(c: Config, s: State, readable: bool)
    requires s.proc.Connected?
    ensures var s' := Next(c, s, ReadPosition(readable)).value;
            TollAt(c, s', SaveRestored).setback > 0 <==> s.saved.Some? && !readable && s.saved.value > c.startBlock
  {
  }

  lemma {:induction false} RunAfter(c: Config, s: State, steps: seq<Step>, more: seq<Step>)
    ensures Run(c, s, steps + more) ==
            if Run(c, s, steps).None? then None else Run(c, Run(c, s, steps).value, more)
  {
    if more == [] {
      assert steps + more == steps;
    } else {
      assert (steps + more)[..|steps + more| - 1] == steps + more[..|more| - 1];
      RunAfter(c, s, steps, more[..|more| - 1]);
    }
  }

  function TwoBlocks(): Config {
    Config(0, 2, 3, (b: int) => [Event(b, 0)])
  }

  /** Restart, and export blocks 1 and 2. */
  function ExportTwo(): seq<Step> {
    [Boot(5), ReadPosition(true), SaveRestored] + [Work(5), Begin, Produce, Produce] + [Commit, SavePosition]
  }

  function Then(c: Config, s: Option<State>, step: Step): Option<State> {
    if s.None? then None else Next(c, s.value, step)
  }

  lemma RunTwo(c: Config, s: State, steps: seq<Step>)
    requires |steps| == 2
    ensures Run(c, s, steps) == Then(c, Then(c, Some(s), steps[0]), steps[1])
  {
    assert steps[..1][..0] == [];
    assert Run(c, s, steps[..1]) == Then(c, Some(s), steps[0]);
  }

  lemma RunThree(c: Config, s: State, steps: seq<Step>)
    requires |steps| == 3
    ensures Run(c, s, steps) == Then(c, Then(c, Then(c, Some(s), steps[0]), steps[1]), steps[2])
  {
    RunTwo(c, s, steps[..2]);
  }

  lemma RunFour(c: Config, s: State, steps: seq<Step>)
    requires |steps| == 4
    ensures Run(c, s, steps) == Then(c, Then(c, Then(c, Then(c, Some(s), steps[0]), steps[1]), steps[2]), steps[3])
  {
    RunThree(c, s, steps[..3]);
  }

  lemma TwoBlocksEvents(lo: int, hi: int)
    ensures lo == 1 && hi == 2 ==> EventsOf(TwoBlocks(), lo, hi) == [Event(1, 0), Event(2, 0)]
    ensures lo > hi ==> EventsOf(TwoBlocks(), lo, hi) == []
  {
    var c := TwoBlocks();
    if lo == 1 && hi == 2 {
      assert EventsOf(c, lo, hi) == c.chain(lo) + (c.chain(lo + 1) + EventsOf(c, lo + 2, hi));
    }
  }

  lemma RestartEmpty()
    ensures Run(TwoBlocks(), Init(), [Boot(5), ReadPosition(true), SaveRestored])
         == Some(State(Idle(2, 0), [], Some(0), [], [5], 0, 0, 0))
  {
    assert Init().heads + [5] == [5];
    RunThree(TwoBlocks(), Init(), [Boot(5), ReadPosition(true), SaveRestored]);
  }

  lemma ProduceTwo(s: State)
    requires s == State(Idle(2, 0), [], Some(0), [], [5], 0, 0, 0)
    ensures Run(TwoBlocks(), s, [Work(5), Begin, Produce, Produce])
         == Some(State(InTransaction(2, 2, 1, 2), [], Some(0), [], [5], 0, 0, 0))
  {
    TwoBlocksEvents(1, 2);
    RunFour(TwoBlocks(), s, [Work(5), Begin, Produce, Produce]);
  }

  lemma CommitTwo(s: State)
    requires s == State(InTransaction(2, 2, 1, 2), [], Some(0), [], [5], 0, 0, 0)
    ensures Run(TwoBlocks(), s, [Commit, SavePosition])
         == Some(State(Idle(2, 2), [Event(1, 0), Event(2, 0)], Some(2), [Interval(1, 2)], [5], 0, 0, 0))
  {
    TwoBlocksEvents(1, 2);
    var events := [Event(1, 0), Event(2, 0)];
    assert s.log + events[..2] == events && s.history + [Interval(1, 2)] == [Interval(1, 2)];
    RunTwo(TwoBlocks(), s, [Commit, SavePosition]);
  }

  lemma AfterExportTwo()
    ensures Run(TwoBlocks(), Init(), ExportTwo())
         == Some(State(Idle(2, 2), [Event(1, 0), Event(2, 0)], Some(2), [Interval(1, 2)], [5], 0, 0, 0))
  {
    var a, b, d := [Boot(5), ReadPosition(true), SaveRestored], [Work(5), Begin, Produce, Produce],
                   [Commit, SavePosition];
    RunAfter(TwoBlocks(), Init(), a + b, d);
    RunAfter(TwoBlocks(), Init(), a, b);
    RestartEmpty();
    ProduceTwo(Run(TwoBlocks(), Init(), a).value);
    CommitTwo(Run(TwoBlocks(), Init(), a + b).value);
  }

  lemma RestartAfterTwo(s: State)
    requires s == State(Idle(2, 2), [Event(1, 0), Event(2, 0)], Some(2), [Interval(1, 2)], [5], 0, 0, 0)
    ensures Run(TwoBlocks(), s, [Crash, Boot(0), ReadPosition(true), SaveRestored])
         == Some(s.(proc := Idle(-3, 2), heads := [5, 0]))
  {
    assert s.heads + [0] == [5, 0];
    RunFour(TwoBlocks(), s, [Crash, Boot(0), ReadPosition(true), SaveRestored]);
  }

  lemma WorkBehind(s: State)
    requires s == State(Idle(-3, 2), [Event(1, 0), Event(2, 0)], Some(2), [Interval(1, 2)], [5, 0], 0, 0, 0)
    ensures Run(TwoBlocks(), s, [Work(2), SavePosition])
         == Some(s.(proc := Idle(-1, -1), heads := [5, 0, 2], saved := Some(-1), regressions := 1))
  {
    TwoBlocksEvents(3, -1);
    assert s.heads + [2] == [5, 0, 2];
    RunTwo(TwoBlocks(), s, [Work(2), SavePosition]);
  }

  /**
   * The bound needs steadiness: a restart against a node that lags far enough moves the position back
   * with no read error and no lost save, and leaves the committed head more than an interval past it.
   */
  lemma LaggingNodeMovesPositionBack()
    ensures var c, steps := TwoBlocks(), ExportTwo() + [Crash, Boot(0), ReadPosition(true), SaveRestored]
                                                     + [Work(2), SavePosition];
            && ValidConfig(c) && Run(c, Init(), steps).Some?
            && var s := Run(c, Init(), steps).value;
               && s.lost == 0 && s.readErrors == 0 && s.saved == Some(-1)
               && Head(c, s.history) > s.saved.value + c.blockInterval
  {
    var c := TwoBlocks();
    var a, b := [Crash, Boot(0), ReadPosition(true), SaveRestored], [Work(2), SavePosition];
    RunAfter(c, Init(), ExportTwo() + a, b);
    RunAfter(c, Init(), ExportTwo(), a);
    AfterExportTwo();
    RestartAfterTwo(Run(c, Init(), ExportTwo()).value);
    WorkBehind(Run(c, Init(), ExportTwo() + a).value);
    assert [Interval(1, 2)][..0] == [];
  }
}

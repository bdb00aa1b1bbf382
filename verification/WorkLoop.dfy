/**
 * The loop that drives the exporter, on objects updated in place (main.ts, lib/worker_base.ts,
 * lib/kafka_storage.ts). What the node, Kafka, Zookeeper and the operator do is given as answers.
 * Every run of the loop is a run of the state machine.
 */
module WorkLoop {
  import opened Common
  import opened ExportProtocol

  /**
   * One iteration: the head the node reports if it answers at all, whether fetching works, how many
   * events Kafka accepts before it refuses one, whether flush and commit work, whether Zookeeper saves
   * the position, and whether the operator asks to stop.
   */
  datatype Answers = Answers(head: Option<int>, fetched: bool, accepted: nat, flushed: bool, committed: bool,
                             saved: bool, stop: bool)

  class BaseWorker {
    const settings: Config
    var lastConfirmedBlock: int
    var lastExportedBlock: int

    constructor (settings: Config, head: int)
      ensures this.settings == settings && lastConfirmedBlock == head - settings.confirmations
      ensures lastExportedBlock == -1
    {
      this.settings := settings;
      lastConfirmedBlock, lastExportedBlock := head - settings.confirmations, -1;
    }

    /** Start from the recovered position, or from the configured one. */
    method InitPosition(lastProcessedPosition: Option<int>) returns (position: int)
      modifies this`lastExportedBlock
      ensures position == lastExportedBlock
           == if lastProcessedPosition.Some? then lastProcessedPosition.value else settings.startBlock
    {
      position := if lastProcessedPosition.Some? then lastProcessedPosition.value else settings.startBlock;
      lastExportedBlock := position;
    }

    function ConfirmedBy(head: Option<int>): int {
      (if head.Some? then head.value else 0) - settings.confirmations
    }

    /** Ask the node for a newer block only when caught up. */
    method AnalyzeWorkerContext(head: Option<int>) returns (r: Result<WorkerContext>)
      modifies this`lastConfirmedBlock
      ensures r.Err? <==> old(lastExportedBlock >= lastConfirmedBlock) && head.None?
      ensures r.Err? ==> lastConfirmedBlock == old(lastConfirmedBlock)
      ensures r.Ok? ==>
                AnalyzeContext(lastExportedBlock, old(lastConfirmedBlock), ConfirmedBy(head))
                == (r.value, lastConfirmedBlock)
    {
      if lastExportedBlock < lastConfirmedBlock {
        return Ok(WorkNoSleep);
      }
      if head.None? {
        return Err("node");
      }
      var newConfirmedBlock := head.value - settings.confirmations;
      if newConfirmedBlock > lastConfirmedBlock {
        lastConfirmedBlock := newConfirmedBlock;
        return Ok(WorkSleep);
      }
      return Ok(NoWorkSleep);
    }

    /** The events of the next interval; the position moves to its end. */
    method Work(head: Option<int>, fetched: bool) returns (r: Result<seq<Event>>)
      modifies this
      ensures r.Err? <==>
              || (old(lastExportedBlock >= lastConfirmedBlock) && head.None?)
              || (!fetched
                  && !AnalyzeContext(old(lastExportedBlock), old(lastConfirmedBlock), ConfirmedBy(head)).0.NoWorkSleep?)
      ensures r.Err? ==> lastExportedBlock == old(lastExportedBlock)
      ensures r.Ok? ==> WorkDone(old(lastConfirmedBlock), old(lastExportedBlock), head, r.value)
    {
      var context := AnalyzeWorkerContext(head);
      if context.Err? {
        return Err(context.error);
      }
      if context.value.NoWorkSleep? {
        return Ok([]);
      }
      var interval := NextIntervalCalculator(lastExportedBlock, settings.blockInterval, lastConfirmedBlock);
      if !fetched {
        return Err("node");
      }
      var events := EventsOf(settings, interval.fromBlock, interval.toBlock);
      lastExportedBlock := interval.toBlock;
      return Ok(events);
    }

    ghost predicate WorkDone(confirmed: int, exported: int, head: Option<int>, events: seq<Event>)
      reads this
    {
      var (context, conf) := AnalyzeContext(exported, confirmed, ConfirmedBy(head));
      && (exported >= confirmed ==> head.Some?)
      && lastConfirmedBlock == conf
      && lastExportedBlock == (if context.NoWorkSleep? then exported
                               else NextIntervalCalculator(exported, settings.blockInterval, conf).toBlock)
      && events == if context.NoWorkSleep? then [] else EventsOf(settings, exported + 1, lastExportedBlock)
    }
  }

  /** Kafka's committed log with the open transaction, and Zookeeper's position. */
  class Exporter {
    var log: seq<Event>
    var open: seq<Event>
    var position: Option<int>

    constructor ()
      ensures log == open == [] && position.None?
    {
      log, open, position := [], [], None;
    }

    /** Produce the events one by one, then flush. */
    method SendData(events: seq<Event>, accepted: nat, flushed: bool) returns (ok: bool)
      requires open == []
      modifies this`open
      ensures ok <==> accepted >= |events| && flushed
      ensures open == events[..Min(accepted, |events|)]
    {
      for i := 0 to |events|
        invariant i <= accepted && open == events[..i]
      {
        if i >= accepted {
          return false;
        }
        open := open + [events[i]];
      }
      ok := flushed;
    }

    /** All the events in one transaction, or none of them. */
    method StoreEvents(events: seq<Event>, accepted: nat, flushed: bool, committed: bool) returns (ok: bool)
      requires open == []
      modifies this`open, this`log
      ensures open == []
      ensures ok <==> accepted >= |events| && flushed && committed
      ensures log == if ok then old(log) + events else old(log)
    {
      var sent := SendData(events, accepted, flushed);
      if sent && committed {
        log := log + open;
      }
      open := [];
      ok := sent && committed;
    }

    method SavePosition(newPosition: int, saved: bool) returns (ok: bool)
      modifies this`position
      ensures ok == saved && position == if saved then Some(newPosition) else old(position)
    {
      if saved {
        position := Some(newPosition);
      }
      ok := saved;
    }
  }

  /** The steps of storing a batch: n events produced, then the transaction committed or aborted. */
  function StoreSteps(n: nat, committed: bool): seq<Step> {
    [Begin] + Produces(n) + [if committed then Commit else Abort]
  }

  function Produces(n: nat): seq<Step> {
    if n == 0 then [] else Produces(n - 1) + [Produce]
  }

  lemma RunOne(c: Config, steps: seq<Step>, step: Step)
    requires Run(c, Init(), steps).Some?
    ensures Run(c, Init(), steps + [step]) == Next(c, Run(c, Init(), steps).value, step)
  {
    RunSnoc(c, Init(), steps, step);
  }

  /** n events of the interval under way have been produced. */
  function Produced(s: State, n: nat): State
    requires s.proc.InTransaction?
  {
    s.(proc := InTransaction(s.proc.lastConfirmed, s.proc.lastExported, s.proc.fromBlock, n))
  }

  lemma ProduceOne(c: Config, s: State, k: nat)
    requires s.proc.InTransaction? && k < |EventsOf(c, s.proc.fromBlock, s.proc.lastExported)|
    ensures Next(c, Produced(s, k), Produce) == Some(Produced(s, k + 1))
  {
  }

  /** Producing goes on for n events. */
  ghost predicate GoesOn(c: Config, s: State, n: nat) {
    s.proc.InTransaction? && forall k: nat :: k < n ==> Next(c, Produced(s, k), Produce) == Some(Produced(s, k + 1))
  }

  lemma {:induction false} RunProduces(c: Config, s: State, n: nat)
    requires GoesOn(c, s, n) && s == Produced(s, 0)
    ensures Run(c, s, Produces(n)) == Some(Produced(s, n))
  {
    if n > 0 {
      RunProduces(c, s, n - 1);
      RunSnoc(c, s, Produces(n - 1), Produce);
    }
  }

  lemma RunSnoc(c: Config, s: State, steps: seq<Step>, step: Step)
    requires Run(c, s, steps).Some?
    ensures Run(c, s, steps + [step]) == Next(c, Run(c, s, steps).value, step)
  {
    assert (steps + [step])[..|steps|] == steps;
  }

  lemma RunBegun(c: Config, steps: seq<Step>, n: nat)
    requires Run(c, Init(), steps).Some? && Run(c, Init(), steps).value.proc.Worked?
    requires var p := Run(c, Init(), steps).value.proc;
             var events := EventsOf(c, p.fromBlock, p.lastExported);
             events != [] && n <= |events|
    ensures var s := Run(c, Init(), steps).value;
            var p := s.proc;
            Run(c, Init(), steps + [Begin] + Produces(n))
            == Some(s.(proc := InTransaction(p.lastConfirmed, p.lastExported, p.fromBlock, n)))
  {
    RunOne(c, steps, Begin);
    var begun := Run(c, Init(), steps + [Begin]).value;
    forall k: nat | k < n ensures Next(c, Produced(begun, k), Produce) == Some(Produced(begun, k + 1)) {
      ProduceOne(c, begun, k);
    }
    RunProduces(c, begun, n);
    RunAfter(c, Init(), steps + [Begin], Produces(n));
  }

  lemma StoreIsLast(steps: seq<Step>, n: nat, committed: bool, begun: seq<Step>, last: Step)
    requires begun == steps + [Begin] + Produces(n) && last == if committed then Commit else Abort
    ensures steps + StoreSteps(n, committed) == begun + [last]
  {
  }

  lemma CommitEnds(c: Config, s: State)
    requires s.proc.InTransaction? && s.proc.produced == |EventsOf(c, s.proc.fromBlock, s.proc.lastExported)|
    ensures var after := Next(c, s, Commit);
            && after.Some? && after.value.saved == s.saved
            && after.value.log == s.log + EventsOf(c, s.proc.fromBlock, s.proc.lastExported)
            && after.value.proc == Stored(s.proc.lastConfirmed, s.proc.lastExported, s.proc.fromBlock)
  {
    var events := EventsOf(c, s.proc.fromBlock, s.proc.lastExported);
    assert events[..s.proc.produced] == events;
  }

  lemma AbortEnds(c: Config, s: State)
    requires s.proc.InTransaction?
    ensures Next(c, s, Abort) == Some(s.(proc := Down))
  {
  }

  lemma WorkGoesOn(c: Config, s: State, head: int)
    requires s.proc.Idle?
    ensures var (context, conf) := AnalyzeContext(s.proc.lastExported, s.proc.lastConfirmed, head - c.confirmations);
            var interval := NextIntervalCalculator(s.proc.lastExported, c.blockInterval, conf);
            var after := Next(c, s, Work(head));
            && after.Some? && after.value.log == s.log && after.value.saved == s.saved
            && after.value.proc == if context.NoWorkSleep?
                                   then Worked(conf, s.proc.lastExported, s.proc.lastExported + 1)
                                   else Worked(conf, interval.toBlock, interval.fromBlock)
  {
  }

  /** Storing a batch takes the machine from Worked to Stored, or down. */
  lemma RunStore(c: Config, steps: seq<Step>, n: nat, committed: bool)
    requires Run(c, Init(), steps).Some? && Run(c, Init(), steps).value.proc.Worked?
    requires var p := Run(c, Init(), steps).value.proc;
             var events := EventsOf(c, p.fromBlock, p.lastExported);
             events != [] && n <= |events| && (committed ==> n == |events|)
    ensures var s := Run(c, Init(), steps).value;
            var after := Run(c, Init(), steps + StoreSteps(n, committed));
            && after.Some?
            && after.value.saved == s.saved
            && after.value.log ==
                 (if committed then s.log + EventsOf(c, s.proc.fromBlock, s.proc.lastExported) else s.log)
            && after.value.proc == if committed
                                   then Stored(s.proc.lastConfirmed, s.proc.lastExported, s.proc.fromBlock) else Down
  {
    var s := Run(c, Init(), steps).value;
    var begun := steps + [Begin] + Produces(n);
    var last := if committed then Commit else Abort;
    RunBegun(c, steps, n);
    RunOne(c, begun, last);
    StoreIsLast(steps, n, committed, begun, last);
    if committed {
      CommitEnds(c, Run(c, Init(), begun).value);
    } else {
      AbortEnds(c, Run(c, Init(), begun).value);
    }
  }

  class Main {
    const worker: BaseWorker
    const exporter: Exporter
    var shouldWork: bool
    /** The run of the state machine so far. */
    ghost var steps: seq<Step>

    /** A process that just started, over what earlier processes left in Kafka and Zookeeper. */
    constructor (worker: BaseWorker, exporter: Exporter, ghost before: seq<Step>, ghost head: int)
      requires ValidConfig(worker.settings) && exporter.open == []
      requires worker.lastConfirmedBlock == head - worker.settings.confirmations
      requires Agree(worker.settings, before, exporter)
      requires Run(worker.settings, Init(), before).value.proc.Down?
      ensures Wired() && steps == before + [Boot(head)] && this.worker == worker && this.exporter == exporter
      ensures Proc() == Connected(worker.lastConfirmedBlock) && shouldWork
    {
      this.worker, this.exporter, this.shouldWork, this.steps := worker, exporter, true, before + [Boot(head)];
      new;
      RunOne(worker.settings, before, Boot(head));
    }

    /** The machine's log and position are those of Kafka and Zookeeper. */
    ghost static predicate Agree(c: Config, steps: seq<Step>, exporter: Exporter)
      reads exporter
    {
      && Run(c, Init(), steps).Some?
      && Run(c, Init(), steps).value.log == exporter.log
      && Run(c, Init(), steps).value.saved == exporter.position
    }

    ghost predicate Wired()
      reads this, exporter
    {
      ValidConfig(worker.settings) && exporter.open == [] && Agree(worker.settings, steps, exporter)
    }

    ghost function Proc(): Proc
      requires Wired()
      reads this, exporter
    {
      Run(worker.settings, Init(), steps).value.proc
    }

    /** Between iterations. */
    ghost predicate Ready()
      reads this, exporter, worker
    {
      Wired() && Proc() == Idle(worker.lastConfirmedBlock, worker.lastExportedBlock)
    }

    /** Recover the position, and save what the worker starts from. */
    method HandleInitPosition(readable: bool, saved: bool) returns (ok: bool)
      requires Wired() && Proc() == Connected(worker.lastConfirmedBlock)
      modifies this`steps, worker`lastExportedBlock, exporter`position
      ensures Wired() && old(steps) <= steps
      ensures if ok then Ready() else Proc().Down?
    {
      ghost var c := worker.settings;
      var lastRecoveredPosition := if readable then exporter.position else None;
      var lastProcessedPosition := worker.InitPosition(lastRecoveredPosition);
      RunOne(c, steps, ReadPosition(readable));
      ok := exporter.SavePosition(lastProcessedPosition, saved);
      RunOne(c, steps + [ReadPosition(readable)], if saved then SaveRestored else Crash);
      steps := steps + [ReadPosition(readable)] + [if saved then SaveRestored else Crash];
    }

    /** Store a non-empty batch. */
    method Store(events: seq<Event>, a: Answers) returns (ok: bool)
      requires Wired() && Proc().Worked? && events != []
      requires events == EventsOf(worker.settings, Proc().fromBlock, Proc().lastExported)
      modifies this`steps, exporter`open, exporter`log
      ensures Wired() && old(steps) <= steps
      ensures var p := old(Proc());
              Proc() == if ok then Stored(p.lastConfirmed, p.lastExported, p.fromBlock) else Down
    {
      ok := exporter.StoreEvents(events, a.accepted, a.flushed, a.committed);
      RunStore(worker.settings, steps, Min(a.accepted, |events|), ok);
      steps := steps + StoreSteps(Min(a.accepted, |events|), ok);
    }

    /** Save the position once the batch is stored, or there was none. */
    method Save(saved: bool) returns (ok: bool)
      requires Wired() && (Proc().Stored? || Proc().Worked?)
      requires Proc().Worked? ==> EventsOf(worker.settings, Proc().fromBlock, Proc().lastExported) == []
      requires Proc().lastExported == worker.lastExportedBlock && Proc().lastConfirmed == worker.lastConfirmedBlock
      modifies this`steps, exporter`position
      ensures Wired() && old(steps) <= steps
      ensures if ok then Ready() else Proc().Down?
    {
      RunOne(worker.settings, steps, if saved then SavePosition else Crash);
      ok := exporter.SavePosition(worker.lastExportedBlock, saved);
      steps := steps + [if saved then SavePosition else Crash];
    }

    /** Let the worker work; on failure the process ends. */
    method LetWork(a: Answers) returns (r: Result<seq<Event>>)
      requires Ready()
      modifies this`steps, worker
      ensures Wired() && old(steps) <= steps
      ensures r.Err? ==> Proc().Down?
      ensures r.Ok? ==> && Proc().Worked?
                        && Proc().lastExported == worker.lastExportedBlock
                        && Proc().lastConfirmed == worker.lastConfirmedBlock
                        && r.value == EventsOf(worker.settings, Proc().fromBlock, Proc().lastExported)
    {
      ghost var head := if a.head.Some? then a.head.value else 0;
      r := worker.Work(a.head, a.fetched);
      ghost var step := if r.Ok? then Work(head) else Crash;
      RunOne(worker.settings, steps, step);
      WorkGoesOn(worker.settings, Run(worker.settings, Init(), steps).value, head);
      steps := steps + [step];
    }

    /** One pass of the loop; false when it ended in an exception. */
    method Iterate(a: Answers) returns (ok: bool)
      requires Ready()
      modifies this`steps, this`shouldWork, worker, exporter
      ensures Wired() && old(steps) <= steps
      ensures if ok then Ready() else Proc().Down?
    {
      var events := LetWork(a);
      if events.Err? {
        return false;
      }
      if |events.value| > 0 {
        var stored := Store(events.value, a);
        if !stored {
          return false;
        }
      }
      ok := Save(a.saved);
      if a.stop {
        shouldWork := false;
      }
    }

    /**
     * Work until told to stop or until an exception. Whatever happens, what the saved position claims
     * is in Kafka, and nothing in Kafka is unconfirmed.
     */
    method WorkLoop(answers: seq<Answers>) returns (r: Result<()>)
      requires Ready()
      modifies this`steps, this`shouldWork, worker, exporter
      ensures Wired() && old(steps) <= steps
      ensures if r.Ok? then Ready() else Proc().Down?
      ensures exporter.position.Some? ==> forall b, e ::
                worker.settings.startBlock < b <= exporter.position.value && e in worker.settings.chain(b) ==>
                  e in exporter.log
      ensures forall e :: e in exporter.log ==> e in worker.settings.chain(e.block)
    {
      var i := 0;
      r := Ok(());
      while shouldWork && i < |answers|
        invariant Ready() && old(steps) <= steps
        invariant r.Ok?
        decreases |answers| - i
      {
        var ok := Iterate(answers[i]);
        if !ok {
          r := Err("Error in exporter work loop");
          break;
        }
        i := i + 1;
      }
      NoGapAndNothingUnconfirmed(worker.settings, steps);
    }
  }
}

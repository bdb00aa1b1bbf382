/**
 * Enriching transfers with balances, erc20/lib/add_balances.ts. Chunks of batches are requested
 * concurrently and share one blacklist; a task gives way to the others at each request to the node.
 * Replies arrive in any order, so a run is any sequence of the moves below.
 */
module AddBalances {
  import opened Common
  import opened BalanceUtils
  import opened MulticallBlacklists

  datatype Entry = Entry(block: int, pair: Pair, balance: Balance)

  /** One element of a multicall answer: the call failed, its data cannot be decoded, or it holds a balance. */
  datatype Raw = Reverted | Undecodable | Decoded(value: nat)

  datatype Reply = Rejected | Values(raws: seq<Raw>)

  function DecodeMulticallResult(raw: Raw): Balance {
    if raw.Decoded? then Amount(raw.value) else MulticallFailure
  }

  /** None when the batch request failed or has the wrong size; the pairs are then requested one by one. */
  function BatchResult(pairs: seq<Pair>, reply: Reply): Option<seq<Balance>> {
    if reply.Values? && |reply.raws| == |pairs| then Some(MapSeq(reply.raws, DecodeMulticallResult)) else None
  }

  predicate AllRejected(replies: seq<Reply>) {
    replies != [] && forall i :: 0 <= i < |replies| ==> replies[i].Rejected?
  }

  predicate WellSized(replies: seq<Reply>) {
    forall i :: 0 <= i < |replies| && replies[i].Values? ==> |replies[i].raws| == 1
  }

  function SingleBalance(reply: Reply): Balance {
    if reply.Values? && |reply.raws| == 1 then DecodeMulticallResult(reply.raws[0]) else MulticallFailure
  }

  /** One call per pair. All of them failing points at the node, and ends the export. */
  function NonBatchResult(replies: seq<Reply>): Result<seq<Balance>> {
    if AllRejected(replies) then Err("All individual multicalls failed")
    else if !WellSized(replies) then Err("Non batch Multicall does not expected response structure")
    else Ok(MapSeq(replies, SingleBalance))
  }

  function EntriesOf(block: int, pairs: seq<Pair>, balances: seq<Balance>): (es: seq<Entry>)
    requires |pairs| == |balances|
    ensures |es| == |pairs|
    ensures forall i :: 0 <= i < |es| ==> es[i] == Entry(block, pairs[i], balances[i])
  {
    seq(|pairs|, i requires 0 <= i < |pairs| => Entry(block, pairs[i], balances[i]))
  }

  function SkippedEntries(block: int, pairs: seq<Pair>): (es: seq<Entry>)
    ensures |es| == |pairs|
    ensures forall i :: 0 <= i < |es| ==> es[i] == Entry(block, pairs[i], MulticallFailure)
  {
    seq(|pairs|, i requires 0 <= i < |pairs| => Entry(block, pairs[i], MulticallFailure))
  }

  // ----- The outcome of a request, per contract -----

  /** The contracts asked for, in order of first appearance. */
  function ContractsOf(es: seq<Entry>): seq<string> {
    if es == [] then []
    else
      var before, c := ContractsOf(es[..|es| - 1]), es[|es| - 1].pair.contract;
      if c in before then before else before + [c]
  }

  predicate EveryFailed(es: seq<Entry>, contract: string) {
    forall i :: 0 <= i < |es| && es[i].pair.contract == contract ==> es[i].balance.MulticallFailure?
  }

  function SignalOf(es: seq<Entry>, contract: string): Signal {
    if EveryFailed(es, contract) then AllFailed(contract) else Clean(contract)
  }

  function SignalsOf(es: seq<Entry>): seq<Signal> {
    MapSeq(ContractsOf(es), (c: string) => SignalOf(es, c))
  }

  // ----- The concurrent tasks -----

  datatype Phase =
    | Ready
    | AwaitBatch(toRequest: seq<Pair>, skipped: seq<Pair>)
    | AwaitSingles(toRequest: seq<Pair>, skipped: seq<Pair>)
    | Thrown

  /** A request is under way. */
  predicate Asking(phase: Phase) {
    phase.AwaitBatch? || phase.AwaitSingles?
  }

  /** A chunk being worked off: the batches left, where the first of them stands, and the results so far. */
  datatype Task = Task(todo: seq<Batch>, phase: Phase, results: seq<Entry>)

  /** The tasks, and the blacklist they share if there is one. A task that throws ends; the others run on. */
  datatype System = System(tasks: seq<Task>, failures: Option<Failures>)

  datatype Move =
    | Start(task: nat)
    | BatchReply(task: nat, reply: Reply)
    | SinglesReply(task: nat, replies: seq<Reply>)

  predicate Skips(failures: Option<Failures>, threshold: int, p: Pair) {
    failures.Some? && Blacklisted(failures.value, threshold, p.contract)
  }

  function Skipper(failures: Option<Failures>, threshold: int): Pair -> bool {
    p => Skips(failures, threshold, p)
  }

  function Asker(failures: Option<Failures>, threshold: int): Pair -> bool {
    p => !Skips(failures, threshold, p)
  }

  function ToRequest(pairs: seq<Pair>, failures: Option<Failures>, threshold: int): seq<Pair> {
    Filter(pairs, Asker(failures, threshold))
  }

  function Skipped(pairs: seq<Pair>, failures: Option<Failures>, threshold: int): seq<Pair> {
    Filter(pairs, Skipper(failures, threshold))
  }

  /** Without a blacklist everything is requested. */
  lemma NothingSkipped(pairs: seq<Pair>, threshold: int)
    ensures ToRequest(pairs, None, threshold) == pairs && Skipped(pairs, None, threshold) == []
  {
    FilterAll(pairs, Asker(None, threshold));
    FilterNone(pairs, Skipper(None, threshold));
  }

  /** The first batch is answered: its outcome is recorded, and the task turns to the next. */
  function Finish(s: System, i: nat, balances: seq<Balance>): System
    requires i < |s.tasks| && s.tasks[i].todo != [] && Asking(s.tasks[i].phase)
    requires |balances| == |s.tasks[i].phase.toRequest|
  {
    var t := s.tasks[i];
    var es := EntriesOf(t.todo[0].block, t.phase.toRequest, balances);
    var results := t.results + (SkippedEntries(t.todo[0].block, t.phase.skipped) + es);
    s.(tasks := s.tasks[i := Task(t.todo[1..], Ready, results)],
       failures := if s.failures.Some? then Some(RecordAll(s.failures.value, SignalsOf(es))) else None)
  }

  function Next(threshold: int, s: System, m: Move): Option<System> {
    if m.task >= |s.tasks| || s.tasks[m.task].todo == [] then None
    else
      var t := s.tasks[m.task];
      match (m, t.phase)
      case (Start(i), Ready) =>
        var batch := t.todo[0];
        var toRequest := ToRequest(batch.pairs, s.failures, threshold);
        var skipped := Skipped(batch.pairs, s.failures, threshold);
        if toRequest == [] then
          Some(s.(tasks := s.tasks[i := Task(t.todo[1..], Ready, t.results + SkippedEntries(batch.block, skipped))]))
        else Some(s.(tasks := s.tasks[i := t.(phase := AwaitBatch(toRequest, skipped))]))
      case (BatchReply(i, reply), AwaitBatch(toRequest, skipped)) =>
        var balances := BatchResult(toRequest, reply);
        if balances.Some? then Some(Finish(s, i, balances.value))
        else Some(s.(tasks := s.tasks[i := t.(phase := AwaitSingles(toRequest, skipped))]))
      case (SinglesReply(i, replies), AwaitSingles(toRequest, skipped)) =>
        if |replies| != |toRequest| then None
        else
          var balances := NonBatchResult(replies);
          if balances.Err? then Some(s.(tasks := s.tasks[i := t.(phase := Thrown)]))
          else Some(Finish(s, i, balances.value))
      case (_, _) => None
  }

  function RunMoves(threshold: int, s: System, moves: seq<Move>): Option<System> {
    if moves == [] then Some(s)
    else
      var before := RunMoves(threshold, s, moves[..|moves| - 1]);
      if before.None? then None else Next(threshold, before.value, moves[|moves| - 1])
  }

  function InitialSystem(chunks: seq<seq<Batch>>, failures: Option<Failures>): System {
    System(MapSeq(chunks, (c: seq<Batch>) => Task(c, Ready, [])), failures)
  }

  predicate Finished(s: System) {
    forall i :: 0 <= i < |s.tasks| ==> s.tasks[i].todo == []
  }

  /** Some task threw, which makes the whole enrichment fail. */
  predicate SomeThrew(s: System) {
    exists i :: 0 <= i < |s.tasks| && s.tasks[i].phase.Thrown?
  }

  // ----- What the node says -----

  /** The balance of an address for a contract at a block; None where the contract cannot tell. */
  type Chain = (int, Pair) -> Option<nat>

  predicate Truthful(chain: Chain, block: int, p: Pair, raw: Raw) {
    raw.Decoded? ==> chain(block, p) == Some(raw.value)
  }

  /** Whatever a reply of the right size decodes to is what the chain says. */
  ghost predicate Honest(chain: Chain, s: System, m: Move) {
    m.task < |s.tasks| && s.tasks[m.task].todo != [] ==>
      var t := s.tasks[m.task];
      var block := t.todo[0].block;
      match m
      case Start(_) => true
      case BatchReply(_, reply) =>
        t.phase.AwaitBatch? && reply.Values? && |reply.raws| == |t.phase.toRequest| ==>
          forall k :: 0 <= k < |reply.raws| ==> Truthful(chain, block, t.phase.toRequest[k], reply.raws[k])
      case SinglesReply(_, replies) =>
        t.phase.AwaitSingles? && |replies| == |t.phase.toRequest| ==>
          forall k :: 0 <= k < |replies| && replies[k].Values? && |replies[k].raws| == 1 ==>
            Truthful(chain, block, t.phase.toRequest[k], replies[k].raws[0])
  }

  ghost predicate HonestRun(chain: Chain, threshold: int, s: System, moves: seq<Move>) {
    moves != [] ==>
      var before := RunMoves(threshold, s, moves[..|moves| - 1]);
      && HonestRun(chain, threshold, s, moves[..|moves| - 1])
      && (before.Some? ==> Honest(chain, before.value, moves[|moves| - 1]))
  }

  // ----- What every move keeps -----

  predicate Admissible(chain: Chain, e: Entry) {
    e.balance.MulticallFailure? || chain(e.block, e.pair) == Some(e.balance.value)
  }

  ghost predicate AllAdmissible(chain: Chain, es: seq<Entry>) {
    forall i :: 0 <= i < |es| ==> Admissible(chain, es[i])
  }

  predicate Answered(es: seq<Entry>, block: int, p: Pair) {
    exists i :: 0 <= i < |es| && es[i].block == block && es[i].pair == p
  }

  ghost predicate Needs(batches: seq<Batch>, block: int, p: Pair) {
    exists i :: 0 <= i < |batches| && batches[i].block == block && p in batches[i].pairs
  }

  /** The results answer exactly what the batches ask, and every answer is the chain's or a failure. */
  ghost predicate Answers(chain: Chain, batches: seq<Batch>, es: seq<Entry>) {
    && AllAdmissible(chain, es)
    && forall block, p :: Answered(es, block, p) <==> Needs(batches, block, p)
  }

  ghost predicate SplitOf(pairs: seq<Pair>, toRequest: seq<Pair>, skipped: seq<Pair>) {
    forall p :: p in pairs <==> p in toRequest || p in skipped
  }

  ghost predicate TaskOk(chain: Chain, chunk: seq<Batch>, t: Task) {
    && |t.todo| <= |chunk| && t.todo == chunk[|chunk| - |t.todo|..]
    && Answers(chain, chunk[..|chunk| - |t.todo|], t.results)
    && (t.phase.Thrown? ==> t.todo != [])
    && (Asking(t.phase) ==>
          t.todo != [] && t.phase.toRequest != [] && SplitOf(t.todo[0].pairs, t.phase.toRequest, t.phase.skipped))
  }

  ghost predicate SystemOk(chain: Chain, chunks: seq<seq<Batch>>, s: System) {
    |s.tasks| == |chunks| && forall i :: 0 <= i < |chunks| ==> TaskOk(chain, chunks[i], s.tasks[i])
  }

  lemma AnsweredAppend(a: seq<Entry>, b: seq<Entry>, block: int, p: Pair)
    ensures Answered(a + b, block, p) <==> Answered(a, block, p) || Answered(b, block, p)
  {
    var ab := a + b;
    if Answered(a, block, p) {
      var i :| 0 <= i < |a| && a[i].block == block && a[i].pair == p;
      assert ab[i] == a[i];
    }
    if Answered(b, block, p) {
      var i :| 0 <= i < |b| && b[i].block == block && b[i].pair == p;
      assert ab[|a| + i] == b[i];
    }
  }

  lemma NeedsAppend(a: seq<Batch>, b: Batch, block: int, p: Pair)
    ensures Needs(a + [b], block, p) <==> Needs(a, block, p) || (b.block == block && p in b.pairs)
  {
    var ab := a + [b];
    assert ab[|a|] == b;
    if Needs(a, block, p) {
      var i :| 0 <= i < |a| && a[i].block == block && p in a[i].pairs;
      assert ab[i] == a[i];
    }
  }

  lemma AnsweredEntries(block: int, pairs: seq<Pair>, es: seq<Entry>)
    requires |es| == |pairs| && forall i :: 0 <= i < |es| ==> es[i].block == block && es[i].pair == pairs[i]
    ensures forall b, p :: Answered(es, b, p) <==> b == block && p in pairs
  {
    forall b, p | b == block && p in pairs ensures Answered(es, b, p) {
      var i :| 0 <= i < |pairs| && pairs[i] == p;
      assert es[i].pair == p;
    }
  }

  /** A batch more is answered. */
  lemma AnswersMore(chain: Chain, batches: seq<Batch>, es: seq<Entry>, batch: Batch, more: seq<Entry>)
    requires Answers(chain, batches, es) && AllAdmissible(chain, more)
    requires forall b, p :: Answered(more, b, p) <==> b == batch.block && p in batch.pairs
    ensures Answers(chain, batches + [batch], es + more)
  {
    forall b, p ensures Answered(es + more, b, p) <==> Needs(batches + [batch], b, p) {
      AnsweredAppend(es, more, b, p);
      NeedsAppend(batches, batch, b, p);
    }
  }

  lemma TaskDone(chain: Chain, chunk: seq<Batch>, t: Task, more: seq<Entry>)
    requires TaskOk(chain, chunk, t) && t.todo != [] && AllAdmissible(chain, more)
    requires forall b, p :: Answered(more, b, p) <==> b == t.todo[0].block && p in t.todo[0].pairs
    ensures TaskOk(chain, chunk, Task(t.todo[1..], Ready, t.results + more))
  {
    var n := |chunk| - |t.todo|;
    assert chunk[..n + 1] == chunk[..n] + [t.todo[0]];
    assert t.todo[1..] == chunk[n + 1..];
    AnswersMore(chain, chunk[..n], t.results, t.todo[0], more);
  }

  lemma SplitCovers(pairs: seq<Pair>, failures: Option<Failures>, threshold: int)
    ensures SplitOf(pairs, ToRequest(pairs, failures, threshold), Skipped(pairs, failures, threshold))
  {
    var asked, skipped := ToRequest(pairs, failures, threshold), Skipped(pairs, failures, threshold);
    forall p ensures p in pairs <==> p in asked || p in skipped {
      FilterMember(pairs, Asker(failures, threshold), p);
      FilterMember(pairs, Skipper(failures, threshold), p);
    }
  }

  /** The entries of a finished batch answer all of its pairs. */
  lemma FinishAnswers(chain: Chain, batch: Batch, toRequest: seq<Pair>, skipped: seq<Pair>, balances: seq<Balance>)
    requires SplitOf(batch.pairs, toRequest, skipped) && |balances| == |toRequest|
    requires AllAdmissible(chain, EntriesOf(batch.block, toRequest, balances))
    ensures var more := SkippedEntries(batch.block, skipped) + EntriesOf(batch.block, toRequest, balances);
            && AllAdmissible(chain, more)
            && forall b, p :: Answered(more, b, p) <==> b == batch.block && p in batch.pairs
  {
    var a, e := SkippedEntries(batch.block, skipped), EntriesOf(batch.block, toRequest, balances);
    AnsweredEntries(batch.block, skipped, a);
    AnsweredEntries(batch.block, toRequest, e);
    forall b, p ensures Answered(a + e, b, p) <==> b == batch.block && p in batch.pairs {
      AnsweredAppend(a, e, b, p);
    }
  }

  lemma BatchAdmissible(chain: Chain, block: int, pairs: seq<Pair>, reply: Reply)
    requires BatchResult(pairs, reply).Some?
    requires forall k :: 0 <= k < |pairs| ==> Truthful(chain, block, pairs[k], reply.raws[k])
    ensures AllAdmissible(chain, EntriesOf(block, pairs, BatchResult(pairs, reply).value))
  {
  }

  lemma SinglesAdmissible(chain: Chain, block: int, pairs: seq<Pair>, replies: seq<Reply>)
    requires |replies| == |pairs| && NonBatchResult(replies).Ok?
    requires forall k :: 0 <= k < |replies| && replies[k].Values? && |replies[k].raws| == 1 ==>
               Truthful(chain, block, pairs[k], replies[k].raws[0])
    ensures AllAdmissible(chain, EntriesOf(block, pairs, NonBatchResult(replies).value))
  {
  }

  /** Only the task that moved changes. */
  lemma OthersStand(chain: Chain, chunks: seq<seq<Batch>>, s: System, s': System, i: nat)
    requires SystemOk(chain, chunks, s) && i < |s.tasks| == |s'.tasks|
    requires forall j :: 0 <= j < |s.tasks| && j != i ==> s'.tasks[j] == s.tasks[j]
    requires TaskOk(chain, chunks[i], s'.tasks[i])
    ensures SystemOk(chain, chunks, s')
  {
  }

  lemma FinishKeeps(chain: Chain, chunks: seq<seq<Batch>>, s: System, i: nat, balances: seq<Balance>)
    requires SystemOk(chain, chunks, s) && i < |s.tasks| && s.tasks[i].todo != [] && Asking(s.tasks[i].phase)
    requires |balances| == |s.tasks[i].phase.toRequest|
    requires AllAdmissible(chain, EntriesOf(s.tasks[i].todo[0].block, s.tasks[i].phase.toRequest, balances))
    ensures SystemOk(chain, chunks, Finish(s, i, balances))
  {
    var t := s.tasks[i];
    var more := SkippedEntries(t.todo[0].block, t.phase.skipped)
                + EntriesOf(t.todo[0].block, t.phase.toRequest, balances);
    FinishAnswers(chain, t.todo[0], t.phase.toRequest, t.phase.skipped, balances);
    TaskDone(chain, chunks[i], t, more);
    OthersStand(chain, chunks, s, Finish(s, i, balances), i);
  }

  lemma StartKeeps(chain: Chain, chunks: seq<seq<Batch>>, threshold: int, s: System, i: nat)
    requires SystemOk(chain, chunks, s) && Next(threshold, s, Start(i)).Some?
    ensures SystemOk(chain, chunks, Next(threshold, s, Start(i)).value)
  {
    var t := s.tasks[i];
    var batch := t.todo[0];
    SplitCovers(batch.pairs, s.failures, threshold);
    var skipped := Skipped(batch.pairs, s.failures, threshold);
    if ToRequest(batch.pairs, s.failures, threshold) == [] {
      AnsweredEntries(batch.block, skipped, SkippedEntries(batch.block, skipped));
      TaskDone(chain, chunks[i], t, SkippedEntries(batch.block, skipped));
    }
    OthersStand(chain, chunks, s, Next(threshold, s, Start(i)).value, i);
  }

  lemma MoveKeeps(chain: Chain, chunks: seq<seq<Batch>>, threshold: int, s: System, m: Move)
    requires SystemOk(chain, chunks, s) && Honest(chain, s, m) && Next(threshold, s, m).Some?
    ensures SystemOk(chain, chunks, Next(threshold, s, m).value)
  {
    var t := s.tasks[m.task];
    var block := t.todo[0].block;
    match m
    case Start(i) => StartKeeps(chain, chunks, threshold, s, i);
    case BatchReply(i, reply) =>
      if BatchResult(t.phase.toRequest, reply).Some? {
        BatchAdmissible(chain, block, t.phase.toRequest, reply);
        FinishKeeps(chain, chunks, s, i, BatchResult(t.phase.toRequest, reply).value);
      } else {
        OthersStand(chain, chunks, s, Next(threshold, s, m).value, i);
      }
    case SinglesReply(i, replies) =>
      if NonBatchResult(replies).Ok? {
        SinglesAdmissible(chain, block, t.phase.toRequest, replies);
        FinishKeeps(chain, chunks, s, i, NonBatchResult(replies).value);
      } else {
        OthersStand(chain, chunks, s, Next(threshold, s, m).value, i);
      }
  }

  lemma InitialOk(chain: Chain, chunks: seq<seq<Batch>>, failures: Option<Failures>)
    ensures SystemOk(chain, chunks, InitialSystem(chunks, failures))
  {
    forall i | 0 <= i < |chunks| ensures TaskOk(chain, chunks[i], InitialSystem(chunks, failures).tasks[i]) {
      assert chunks[i][..0] == [];
    }
  }

  lemma {:induction false} MovesKeep(chain: Chain, chunks: seq<seq<Batch>>, failures: Option<Failures>, threshold: int,
                                     moves: seq<Move>)
    requires HonestRun(chain, threshold, InitialSystem(chunks, failures), moves)
    requires RunMoves(threshold, InitialSystem(chunks, failures), moves).Some?
    ensures SystemOk(chain, chunks, RunMoves(threshold, InitialSystem(chunks, failures), moves).value)
  {
    InitialOk(chain, chunks, failures);
    if moves != [] {
      var init := moves[..|moves| - 1];
      MovesKeep(chain, chunks, failures, threshold, init);
      MoveKeeps(chain, chunks, threshold, RunMoves(threshold, InitialSystem(chunks, failures), init).value,
                moves[|moves| - 1]);
    }
  }

  // ----- Every schedule ends -----

  function Rank(t: Task): nat {
    4 * |t.todo| - if t.todo == [] then 0 else
                     match t.phase
                     case Ready => 0
                     case AwaitBatch(_, _) => 1
                     case AwaitSingles(_, _) => 2
                     case Thrown => 3
  }

  function Work(tasks: seq<Task>): nat {
    if tasks == [] then 0 else Rank(tasks[0]) + Work(tasks[1..])
  }

  lemma {:induction false} WorkDrops(tasks: seq<Task>, i: nat, t: Task)
    requires i < |tasks| && Rank(t) < Rank(tasks[i])
    ensures Work(tasks[i := t]) < Work(tasks)
  {
    if i == 0 {
      assert tasks[i := t][1..] == tasks[1..];
    } else {
      assert tasks[i := t][1..] == tasks[1..][i - 1 := t];
      WorkDrops(tasks[1..], i - 1, t);
    }
  }

  /** Each move uses up some of the work. */
  lemma MovesEnd(threshold: int, s: System, m: Move)
    requires Next(threshold, s, m).Some?
    ensures Work(Next(threshold, s, m).value.tasks) < Work(s.tasks)
  {
    WorkDrops(s.tasks, m.task, Next(threshold, s, m).value.tasks[m.task]);
  }

  /** Each task is done or threw. */
  predicate Ended(s: System) {
    forall i :: 0 <= i < |s.tasks| ==> s.tasks[i].todo == [] || s.tasks[i].phase.Thrown?
  }

  /**
   * There is a next move exactly as long as some task is neither done nor threw: it asks, is answered, or is refused.
   */
  lemma MovesGoOn(threshold: int, s: System)
    ensures Ended(s) <==> !exists m :: Next(threshold, s, m).Some?
  {
    if i :| 0 <= i < |s.tasks| && s.tasks[i].todo != [] && !s.tasks[i].phase.Thrown? {
      match s.tasks[i].phase
      case Ready => assert Next(threshold, s, Start(i)).Some?;
      case AwaitBatch(toRequest, _) => assert Next(threshold, s, BatchReply(i, Rejected)).Some?;
      case AwaitSingles(toRequest, _) =>
        assert Next(threshold, s, SinglesReply(i, seq(|toRequest|, _ => Rejected))).Some?;
    }
  }

  /** So every run can be taken to where each task is done or threw, and cannot go on from there. */
  lemma {:induction false} RunToTheEnd(threshold: int, s: System) returns (moves: seq<Move>)
    ensures RunMoves(threshold, s, moves).Some? && Ended(RunMoves(threshold, s, moves).value)
    decreases Work(s.tasks)
  {
    MovesGoOn(threshold, s);
    if Ended(s) {
      moves := [];
    } else {
      var m :| Next(threshold, s, m).Some?;
      MovesEnd(threshold, s, m);
      var rest := RunToTheEnd(threshold, Next(threshold, s, m).value);
      moves := [m] + rest;
      MovesFrom(threshold, s, m, rest);
    }
  }

  lemma {:induction false} MovesFrom(threshold: int, s: System, m: Move, rest: seq<Move>)
    requires Next(threshold, s, m).Some?
    ensures RunMoves(threshold, s, [m] + rest) == RunMoves(threshold, Next(threshold, s, m).value, rest)
  {
    var all := [m] + rest;
    if rest == [] {
      assert all == [m] && all[..0] == [];
    } else {
      assert all[..|all| - 1] == [m] + rest[..|rest| - 1];
      MovesFrom(threshold, s, m, rest[..|rest| - 1]);
    }
  }
}

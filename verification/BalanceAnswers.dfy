/**
 * What an answer to a balance request comes to, and when an enrichment is at its end: executeBatchMulticall and
 * executeNonBatchMulticall of erc20/lib/add_balances.ts.
 */
module BalanceAnswers {
  import opened Common
  import opened MulticallBlacklists
  import opened BalanceUtils
  import opened AddBalances
  import B = BlacklistUse
  import F = FetchEvents
  import C = Balancing

  /** The balance told by one element of an answer: a number that could be decoded, else a failure. */
  predicate TellsBalance(raw: Raw, balance: Balance) {
    && (raw != Reverted && raw != Undecodable ==> balance == Amount(raw.value))
    && (raw == Reverted || raw == Undecodable ==> balance == MulticallFailure)
  }

  /** A batch counts if its answer has as many elements as pairs were asked for; each then tells its pair's balance. */
  lemma BatchIff(pairs: seq<Pair>, reply: Reply)
    ensures BatchResult(pairs, reply).Some? <==> reply != Rejected && |reply.raws| == |pairs|
    ensures BatchResult(pairs, reply).Some? ==>
              && |BatchResult(pairs, reply).value| == |pairs|
              && forall k :: 0 <= k < |pairs| ==> TellsBalance(reply.raws[k], BatchResult(pairs, reply).value[k])
  {
  }

  /** The balance told by the answer to a request for one pair. */
  predicate TellsSingle(reply: Reply, balance: Balance) {
    if reply == Rejected then balance == MulticallFailure
    else |reply.raws| == 1 && TellsBalance(reply.raws[0], balance)
  }

  /** Some answer to a request for one pair has not one element. */
  predicate SomeMalformed(replies: seq<Reply>) {
    exists k :: 0 <= k < |replies| && replies[k] != Rejected && |replies[k].raws| != 1
  }

  predicate SomeAnswered(replies: seq<Reply>) {
    exists k :: 0 <= k < |replies| && replies[k] != Rejected
  }

  /**
   * Requests pair by pair throw exactly when there are some and all are rejected, or one is answered with more or
   * less than one element; otherwise each tells its pair's balance, a rejected one a failure.
   */
  lemma SinglesIff(replies: seq<Reply>)
    ensures NonBatchResult(replies).Err? <==> (replies != [] && !SomeAnswered(replies)) || SomeMalformed(replies)
    ensures NonBatchResult(replies).Ok? ==>
              && |NonBatchResult(replies).value| == |replies|
              && forall k :: 0 <= k < |replies| ==> TellsSingle(replies[k], NonBatchResult(replies).value[k])
  {
  }

  /** A request falls back to its pairs one by one exactly when the batch does not count. */
  lemma AnswersTell(pairs: seq<Pair>, reply: Reply, replies: seq<Reply>)
    requires |replies| == |pairs|
    ensures reply != Rejected && |reply.raws| == |pairs| ==>
              && B.Answers(pairs, reply, replies).Ok? && |B.Answers(pairs, reply, replies).value| == |pairs|
              && forall k :: 0 <= k < |pairs| ==> TellsBalance(reply.raws[k], B.Answers(pairs, reply, replies).value[k])
    ensures !(reply != Rejected && |reply.raws| == |pairs|) ==>
              B.Answers(pairs, reply, replies) == NonBatchResult(replies)
  {
    BatchIff(pairs, reply);
  }

  // ----- One request as a run -----

  /** The moves of a task that has one batch to ask for. */
  function MovesOf(pairs: seq<Pair>, reply: Reply, replies: seq<Reply>): seq<Move> {
    if pairs == [] then [Start(0)]
    else if reply != Rejected && |reply.raws| == |pairs| then [Start(0), BatchReply(0, reply)]
    else [Start(0), BatchReply(0, reply), SinglesReply(0, replies)]
  }

  function Alone(batch: Batch, failures: Option<Failures>): System {
    System([Task([batch], Ready, [])], failures)
  }

  lemma RunOne(threshold: int, s: System, a: Move)
    ensures RunMoves(threshold, s, [a]) == Next(threshold, s, a)
  {
    assert [a][..0] == [];
  }

  lemma RunSnoc(threshold: int, s: System, moves: seq<Move>, a: Move)
    ensures RunMoves(threshold, s, moves + [a]) ==
            if RunMoves(threshold, s, moves).None? then None
            else Next(threshold, RunMoves(threshold, s, moves).value, a)
  {
    assert (moves + [a])[..|moves|] == moves;
  }

  lemma RunOfMoves(threshold: int, s: System, reply: Reply, replies: seq<Reply>)
    ensures RunMoves(threshold, s, [Start(0)]) == Next(threshold, s, Start(0))
    ensures RunMoves(threshold, s, [Start(0), BatchReply(0, reply)]) ==
            if Next(threshold, s, Start(0)).None? then None
            else Next(threshold, Next(threshold, s, Start(0)).value, BatchReply(0, reply))
    ensures RunMoves(threshold, s, [Start(0), BatchReply(0, reply), SinglesReply(0, replies)]) ==
            if RunMoves(threshold, s, [Start(0), BatchReply(0, reply)]).None? then None
            else Next(threshold, RunMoves(threshold, s, [Start(0), BatchReply(0, reply)]).value,
                      SinglesReply(0, replies))
  {
    RunOne(threshold, s, Start(0));
    RunSnoc(threshold, s, [Start(0)], BatchReply(0, reply));
    RunSnoc(threshold, s, [Start(0), BatchReply(0, reply)], SinglesReply(0, replies));
    assert [Start(0)] + [BatchReply(0, reply)] == [Start(0), BatchReply(0, reply)];
    assert [Start(0), BatchReply(0, reply)] + [SinglesReply(0, replies)]
        == [Start(0), BatchReply(0, reply), SinglesReply(0, replies)];
  }

  /** The run ends with the task done and these results, or with the task having thrown. */
  predicate Ends(final: Option<System>, result: Result<seq<Entry>>, after: Option<Failures>) {
    && final.Some? && |final.value.tasks| == 1 && final.value.failures == after
    && (result.Ok? ==> final.value.tasks[0] == Task([], Ready, result.value))
    && (result.Err? <==> final.value.tasks[0].phase == Thrown)
  }

  /** The task, once its batch is requested, or its pairs one by one. */
  function Requested(batch: Batch, phase: Phase, failures: Option<Failures>): System {
    System([Task([batch], phase, [])], failures)
  }

  lemma Asks(batch: Batch, failures: Option<Failures>, threshold: int)
    ensures var toRequest := ToRequest(batch.pairs, failures, threshold);
            var skipped := Skipped(batch.pairs, failures, threshold);
            Next(threshold, Alone(batch, failures), Start(0)) ==
            Some(if toRequest == []
                 then System([Task([], Ready, SkippedEntries(batch.block, skipped))], failures)
                 else Requested(batch, AwaitBatch(toRequest, skipped), failures))
  {
    var toRequest := ToRequest(batch.pairs, failures, threshold);
    var skipped := Skipped(batch.pairs, failures, threshold);
    var t, tasks := Task([batch], Ready, []), Alone(batch, failures).tasks;
    var es := SkippedEntries(batch.block, skipped);
    assert [batch][1..] == [] && [] + es == es;
    assert tasks[0 := Task([], Ready, es)] == [Task([], Ready, es)];
    assert tasks[0 := t.(phase := AwaitBatch(toRequest, skipped))]
        == Requested(batch, AwaitBatch(toRequest, skipped), failures).tasks;
  }

  /** The task and the blacklist after an answer with these balances. */
  function Answered(batch: Batch, toRequest: seq<Pair>, skipped: seq<Pair>, balances: seq<Balance>,
                    failures: Option<Failures>): System
    requires |balances| == |toRequest|
  {
    var es := EntriesOf(batch.block, toRequest, balances);
    System([Task([], Ready, SkippedEntries(batch.block, skipped) + es)],
           if failures.None? then None else Some(RecordAll(failures.value, SignalsOf(es))))
  }

  lemma Finishes(batch: Batch, phase: Phase, failures: Option<Failures>, balances: seq<Balance>)
    requires Asking(phase) && |balances| == |phase.toRequest|
    ensures Finish(Requested(batch, phase, failures), 0, balances)
         == Answered(batch, phase.toRequest, phase.skipped, balances, failures)
  {
    assert [batch][1..] == [];
    var results := SkippedEntries(batch.block, phase.skipped) + EntriesOf(batch.block, phase.toRequest, balances);
    assert [] + results == results;
  }

  lemma BatchEnds(threshold: int, batch: Batch, toRequest: seq<Pair>, skipped: seq<Pair>, failures: Option<Failures>,
                  reply: Reply)
    ensures var balances := BatchResult(toRequest, reply);
            Next(threshold, Requested(batch, AwaitBatch(toRequest, skipped), failures), BatchReply(0, reply)) ==
            Some(if balances.Some? then Answered(batch, toRequest, skipped, balances.value, failures)
                 else Requested(batch, AwaitSingles(toRequest, skipped), failures))
  {
    var balances, s := BatchResult(toRequest, reply), Requested(batch, AwaitBatch(toRequest, skipped), failures);
    if balances.Some? {
      Finishes(batch, AwaitBatch(toRequest, skipped), failures, balances.value);
    }
    var t := Task([batch], AwaitSingles(toRequest, skipped), []);
    assert s.tasks[0 := t] == [t];
  }

  lemma SinglesEnd(threshold: int, batch: Batch, toRequest: seq<Pair>, skipped: seq<Pair>, failures: Option<Failures>,
                   replies: seq<Reply>)
    requires |replies| == |toRequest|
    ensures var balances := NonBatchResult(replies);
            balances.Ok? ==> |balances.value| == |toRequest|
    ensures var balances := NonBatchResult(replies);
            Next(threshold, Requested(batch, AwaitSingles(toRequest, skipped), failures), SinglesReply(0, replies)) ==
            Some(if balances.Ok? then Answered(batch, toRequest, skipped, balances.value, failures)
                 else Requested(batch, Thrown, failures))
  {
    var balances, s := NonBatchResult(replies), Requested(batch, AwaitSingles(toRequest, skipped), failures);
    SinglesIff(replies);
    if balances.Ok? {
      Finishes(batch, AwaitSingles(toRequest, skipped), failures, balances.value);
    }
    var t := Task([batch], Thrown, []);
    assert s.tasks[0 := t] == [t];
  }

  /** The method that asks for one batch does what the moves of a task do that is alone with it. */
  lemma RequestIsARun(batch: Batch, failures: Option<Failures>, threshold: int, reply: Reply, replies: seq<Reply>)
    requires |replies| == |ToRequest(batch.pairs, failures, threshold)|
    ensures var moves := MovesOf(ToRequest(batch.pairs, failures, threshold), reply, replies);
            var (result, after) := B.Outcome(batch, failures, threshold, reply, replies);
            Ends(RunMoves(threshold, Alone(batch, failures), moves), result, after)
  {
    var toRequest := ToRequest(batch.pairs, failures, threshold);
    var skipped := Skipped(batch.pairs, failures, threshold);
    RunOfMoves(threshold, Alone(batch, failures), reply, replies);
    Asks(batch, failures, threshold);
    if toRequest != [] {
      AnswersTell(toRequest, reply, replies);
      SinglesIff(replies);
      BatchEnds(threshold, batch, toRequest, skipped, failures, reply);
      SinglesEnd(threshold, batch, toRequest, skipped, failures, replies);
    }
  }

  /** A run that cannot go on has asked for everything, unless a task threw. */
  lemma StopsIff(threshold: int, s: System)
    ensures (forall m :: Next(threshold, s, m).None?) <==>
            forall i :: 0 <= i < |s.tasks| ==> s.tasks[i].todo == [] || s.tasks[i].phase == Thrown
    ensures (forall m :: Next(threshold, s, m).None?) ==>
              || (forall i :: 0 <= i < |s.tasks| ==> s.tasks[i].todo == [])
              || (exists i :: 0 <= i < |s.tasks| && s.tasks[i].phase == Thrown)
  {
    MovesGoOn(threshold, s);
  }

  /** A schedule that cannot go on fits the work call that asks for the balances. */
  lemma StoppedEnds(b: C.Balancer, olds: seq<F.Transfer>, others: seq<F.Transfer>, failures: Option<Failures>,
                    moves: seq<Move>)
    requires C.ValidBalancer(b) && C.Final(b, olds, others, failures, moves).Some?
    requires forall m :: Next(b.threshold, C.Final(b, olds, others, failures, moves).value, m).None?
    ensures C.Ends(b, olds, others, failures, moves)
  {
    StopsIff(b.threshold, C.Final(b, olds, others, failures, moves).value);
  }
}

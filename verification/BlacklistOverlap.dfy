/**
 * Two requests under way for one contract: the first answer puts the contract on the blacklist, the second takes it
 * off.
 */
module BlacklistOverlap {
  import opened Common
  import opened Chunks
  import opened BalanceUtils
  import opened AddBalances
  import opened Enrichment
  import opened BlacklistUse

  /** A transfer to the contract itself, so that only its sender needs a balance. */
  predicate SenderOnly(checksum: string -> bool, e: Movement) {
    Eligible(checksum, e.sender, e.contract) && e.receiver == e.contract
  }

  function SenderPair(e: Movement): Pair {
    Pair(e.sender, e.contract)
  }

  /** The one request of a transfer. */
  function RequestOf(e: Movement): Batch {
    Batch(e.blockNumber, [SenderPair(e)])
  }

  lemma OnePair(checksum: string -> bool, e: Movement)
    requires SenderOnly(checksum, e)
    ensures AddAll([], EventPairs(checksum, e)) == [SenderPair(e)]
  {
    assert EventPairs(checksum, e) == [SenderPair(e)];
    AddAllTwo([], EventPairs(checksum, e));
  }

  lemma OneRequest(checksum: string -> bool, events: seq<Movement>, i: nat)
    requires i < |events| == 2 && SenderOnly(checksum, events[i]) && events[0].blockNumber != events[1].blockNumber
    ensures Labelled(events[i].blockNumber, Slices(PairsAt(checksum, events, 2, events[i].blockNumber), 1))
            == [RequestOf(events[i])]
  {
    var block := events[i].blockNumber;
    OnePair(checksum, events[i]);
    assert PairsAt(checksum, events, 2, block) == [SenderPair(events[i])] by {
      assert PairsAt(checksum, events, 0, block) == [];
      assert PairsAt(checksum, events, 1, block) == if i == 0 then [SenderPair(events[0])] else [];
    }
    assert Slices([SenderPair(events[i])], 1)[1..] == [];
  }

  lemma BlocksOfTwo(e: Movement, f: Movement)
    requires e.blockNumber != f.blockNumber
    ensures BlocksOf([e, f], 2) == [e.blockNumber, f.blockNumber]
  {
    assert BlocksOf([e, f], 0) == [] && BlocksOf([e, f], 1) == [e.blockNumber];
  }

  lemma {:induction false} BatchesOfTwo(checksum: string -> bool, events: seq<Movement>, b: int, d: int, x: Batch,
                                        y: Batch)
    requires Labelled(b, Slices(PairsAt(checksum, events, |events|, b), 1)) == [x]
    requires Labelled(d, Slices(PairsAt(checksum, events, |events|, d), 1)) == [y]
    ensures BatchesOf(checksum, events, [b, d], 1) == [x, y]
  {
    var blocks := [b, d];
    BatchesStep(checksum, events, blocks, 0, 1);
    BatchesStep(checksum, events, blocks, 1, 1);
    assert blocks[..0] == [] && blocks[..2] == blocks;
  }

  lemma TwoRequests(checksum: string -> bool, e: Movement, f: Movement)
    requires SenderOnly(checksum, e) && SenderOnly(checksum, f) && e.blockNumber != f.blockNumber
    ensures BatchesOf(checksum, [e, f], BlocksOf([e, f], 2), 1) == [RequestOf(e), RequestOf(f)]
  {
    var events := [e, f];
    BlocksOfTwo(e, f);
    OneRequest(checksum, events, 0);
    OneRequest(checksum, events, 1);
    BatchesOfTwo(checksum, events, e.blockNumber, f.blockNumber, RequestOf(e), RequestOf(f));
  }

  lemma EachInItsChunk(batches: seq<Batch>)
    requires |batches| == 2
    ensures ChunksOf(batches, 2) == [[batches[0]], [batches[1]]]
  {
    assert ChunkSize(batches, 2) == 1;
    TwoChunks();
    assert batches[0..1] == [batches[0]] && batches[1..2] == [batches[1]];
  }

  /** Two such transfers of different blocks are asked for by two tasks at once. */
  lemma TwoTasks(checksum: string -> bool, e: Movement, f: Movement)
    requires SenderOnly(checksum, e) && SenderOnly(checksum, f) && e.blockNumber != f.blockNumber
    ensures TaskChunks(checksum, [e, f], 1, 2) == [[RequestOf(e)], [RequestOf(f)]]
  {
    TwoRequests(checksum, e, f);
    EachInItsChunk([RequestOf(e), RequestOf(f)]);
  }

  lemma TwoChunks()
    ensures InclusiveChunks(0, 1, 1) == [(0, 0), (1, 1)]
  {
    assert InclusiveChunks(2, 1, 1) == [];
    assert InclusiveChunks(1, 1, 1) == [(1, 1)];
  }

  function AskingTask(e: Movement): Task {
    Task([RequestOf(e)], AwaitBatch([SenderPair(e)], []), [])
  }

  /** While nothing is listed, starting a task asks for its pair. */
  lemma StartAsks(s: System, i: nat, e: Movement)
    requires i < |s.tasks| && s.tasks[i] == Task([RequestOf(e)], Ready, [])
    requires s.failures == Some(map[])
    ensures Next(1, s, Start(i)) == Some(s.(tasks := s.tasks[i := AskingTask(e)]))
  {
    var pairs := [SenderPair(e)];
    FilterAll(pairs, Asker(s.failures, 1));
    FilterNone(pairs, Skipper(s.failures, 1));
  }

  /** With both requests under way, a reverted call lists the contract, and a decoded one takes it off again. */
  lemma RevertThenDecode(s: System, e: Movement, f: Movement, amount: nat)
    requires s == System([AskingTask(e), AskingTask(f)], Some(map[])) && e.contract == f.contract
    ensures var s1 := Next(1, s, BatchReply(0, Values([Reverted])));
            && s1.Some? && IsListed(s1.value, 1, e.contract)
            && var s2 := Next(1, s1.value, BatchReply(1, Values([Decoded(amount)])));
               s2.Some? && !IsListed(s2.value, 1, e.contract)
  {
    var pair := SenderPair(e);
    var failed := BatchResult([pair], Values([Reverted])).value;
    assert pair in [pair];
    AnswerEffect(e.blockNumber, [pair], failed, map[], e.contract);
    var s1 := Next(1, s, BatchReply(0, Values([Reverted]))).value;
    assert s1.tasks[1] == AskingTask(f);
    var m := BatchReply(1, Values([Decoded(amount)]));
    var resolved := BatchResult([SenderPair(f)], m.reply).value;
    assert resolved[0] == Amount(amount);
    assert Resolves(s1, m, e.contract);
    MoveTakesOffIff(1, s1, m, e.contract);
  }

  lemma RunStep(threshold: int, s: System, moves: seq<Move>, m: Move)
    ensures RunMoves(threshold, s, moves + [m]) ==
            var before := RunMoves(threshold, s, moves);
            if before.None? then None else Next(threshold, before.value, m)
  {
    assert (moves + [m])[..|moves|] == moves;
  }

  lemma BothStart(s: System, e: Movement, f: Movement)
    requires s == System([Task([RequestOf(e)], Ready, []), Task([RequestOf(f)], Ready, [])], Some(map[]))
    ensures RunMoves(1, s, [Start(0), Start(1)]) == Some(s.(tasks := [AskingTask(e), AskingTask(f)]))
  {
    StartAsks(s, 0, e);
    var asking := Next(1, s, Start(0)).value;
    StartAsks(asking, 1, f);
    assert [Start(0)] == [] + [Start(0)] && [Start(0), Start(1)] == [Start(0)] + [Start(1)];
    RunStep(1, s, [], Start(0));
    RunStep(1, s, [Start(0)], Start(1));
    assert Next(1, asking, Start(1)).value.tasks == [AskingTask(e), AskingTask(f)];
  }

  /** The two starts and the reverted answer. */
  const UNTIL_LISTED := [Start(0), Start(1)] + [BatchReply(0, Values([Reverted]))]

  lemma ListedThenTakenOff(start: System, e: Movement, f: Movement, amount: nat)
    requires start == System([Task([RequestOf(e)], Ready, []), Task([RequestOf(f)], Ready, [])], Some(map[]))
    requires e.contract == f.contract
    ensures var listed := RunMoves(1, start, UNTIL_LISTED);
            var after := RunMoves(1, start, UNTIL_LISTED + [BatchReply(1, Values([Decoded(amount)]))]);
            && listed.Some? && IsListed(listed.value, 1, e.contract)
            && after.Some? && Finished(after.value) && !IsListed(after.value, 1, e.contract)
  {
    BothStart(start, e, f);
    RunStep(1, start, [Start(0), Start(1)], BatchReply(0, Values([Reverted])));
    RunStep(1, start, UNTIL_LISTED, BatchReply(1, Values([Decoded(amount)])));
    RevertThenDecode(start.(tasks := [AskingTask(e), AskingTask(f)]), e, f, amount);
  }

  /**
   * Two transfers of one contract at different blocks, two connections, batches of one pair and a
   * threshold of one: the first answer lists the contract, and the second takes it off.
   */
  lemma OverlapTakesOff(checksum: string -> bool, e: Movement, f: Movement, amount: nat)
    requires SenderOnly(checksum, e) && SenderOnly(checksum, f)
    requires e.contract == f.contract && e.blockNumber != f.blockNumber
    ensures var start := InitialSystem(TaskChunks(checksum, [e, f], 1, 2), Some(map[]));
            var listed := RunMoves(1, start, UNTIL_LISTED);
            var after := RunMoves(1, start, UNTIL_LISTED + [BatchReply(1, Values([Decoded(amount)]))]);
            && listed.Some? && IsListed(listed.value, 1, e.contract)
            && after.Some? && Finished(after.value) && !IsListed(after.value, 1, e.contract)
  {
    TwoTasks(checksum, e, f);
    ListedThenTakenOff(InitialSystem(TaskChunks(checksum, [e, f], 1, 2), Some(map[])), e, f, amount);
  }
}

/** From the results of the concurrent tasks to the two balances of every transfer. */
module Enrichment {
  import opened Common
  import opened BalanceUtils
  import opened MulticallBlacklists
  import opened Chunks
  import opened AddBalances

  type BalanceMap = map<int, map<string, Balance>>

  function Key(p: Pair): string {
    ConcatAddressAndContract(p.address, p.contract)
  }

  function AddToMap(m: BalanceMap, e: Entry): BalanceMap {
    m[e.block := (if e.block in m then m[e.block] else map[])[Key(e.pair) := e.balance]]
  }

  function MapOf(es: seq<Entry>): BalanceMap {
    if es == [] then map[] else AddToMap(MapOf(es[..|es| - 1]), es[|es| - 1])
  }

  function Lookup(m: BalanceMap, block: int, p: Pair): Option<Balance> {
    if block in m && Key(p) in m[block] then Some(m[block][Key(p)]) else None
  }

  ghost predicate HexEntries(es: seq<Entry>) {
    forall i :: 0 <= i < |es| ==> HexShape(es[i].pair.address)
  }

  lemma LookupAdded(m: BalanceMap, e: Entry, block: int, p: Pair)
    requires HexShape(e.pair.address) && HexShape(p.address)
    ensures Lookup(AddToMap(m, e), block, p) ==
            if e.block == block && e.pair == p then Some(e.balance) else Lookup(m, block, p)
  {
    if Key(e.pair) == Key(p) {
      KeysDiffer(e.pair, p);
    }
  }

  /** The map holds a pair exactly when some result answers it, and then holds one of those answers. */
  lemma {:induction false} LookupFacts(es: seq<Entry>, block: int, p: Pair)
    requires HexEntries(es) && HexShape(p.address)
    ensures Lookup(MapOf(es), block, p).Some? <==> Answered(es, block, p)
    ensures Lookup(MapOf(es), block, p).Some? ==> Entry(block, p, Lookup(MapOf(es), block, p).value) in es
  {
    if es != [] {
      var init, last := es[..|es| - 1], es[|es| - 1];
      assert HexShape(last.pair.address) && HexEntries(init);
      LookupFacts(init, block, p);
      LookupAdded(MapOf(init), last, block, p);
      AnsweredSnoc(es, block, p);
    }
  }

  lemma AnsweredSnoc(es: seq<Entry>, block: int, p: Pair)
    requires es != []
    ensures var init, last := es[..|es| - 1], es[|es| - 1];
            Answered(es, block, p) <==> Answered(init, block, p) || (last.block == block && last.pair == p)
  {
    var init, last := es[..|es| - 1], es[|es| - 1];
    assert es == init + [last];
    AnsweredAppend(init, [last], block, p);
    AnsweredOne(last, block, p);
  }

  lemma AnsweredOne(e: Entry, block: int, p: Pair)
    ensures Answered([e], block, p) <==> e.block == block && e.pair == p
  {
    assert [e][0] == e;
  }

  method ReduceToMap(es: seq<Entry>) returns (acc: BalanceMap)
    ensures acc == MapOf(es)
  {
    acc := map[];
    for i := 0 to |es|
      invariant acc == MapOf(es[..i])
    {
      assert es[..i + 1][..i] == es[..i];
      acc := AddToMap(acc, es[i]);
    }
    assert es[..|es|] == es;
  }

  function ResultsOf(s: System): seq<Entry> {
    Flatten(MapSeq(s.tasks, (t: Task) => t.results))
  }

  lemma {:induction false} AnsweredFlatten(ess: seq<seq<Entry>>, block: int, p: Pair)
    ensures Answered(Flatten(ess), block, p) <==> exists i :: 0 <= i < |ess| && Answered(ess[i], block, p)
  {
    if ess != [] {
      AnsweredAppend(ess[0], Flatten(ess[1..]), block, p);
      AnsweredFlatten(ess[1..], block, p);
      if Answered(Flatten(ess[1..]), block, p) {
        var i :| 0 <= i < |ess[1..]| && Answered(ess[1..][i], block, p);
        assert Answered(ess[i + 1], block, p);
      }
      if i :| 0 <= i < |ess| && Answered(ess[i], block, p) {
        if i > 0 {
          assert Answered(ess[1..][i - 1], block, p);
        }
      }
    }
  }

  /** Once all tasks are done, the results answer exactly what the chunks asked. */
  lemma FinishedAnswers(chain: Chain, chunks: seq<seq<Batch>>, s: System)
    requires SystemOk(chain, chunks, s) && Finished(s)
    ensures forall block, p :: Answered(ResultsOf(s), block, p) <==>
              exists i :: 0 <= i < |chunks| && Needs(chunks[i], block, p)
    ensures forall e :: e in ResultsOf(s) ==> Admissible(chain, e)
  {
    var ess := MapSeq(s.tasks, (t: Task) => t.results);
    forall i | 0 <= i < |chunks| ensures Answers(chain, chunks[i], ess[i]) {
      assert TaskOk(chain, chunks[i], s.tasks[i]);
      assert chunks[i][..|chunks[i]|] == chunks[i];
    }
    forall block, p
      ensures Answered(ResultsOf(s), block, p) <==> exists i :: 0 <= i < |chunks| && Needs(chunks[i], block, p)
    {
      AnsweredFlatten(ess, block, p);
      assert forall i :: 0 <= i < |chunks| ==> (Answered(ess[i], block, p) <==> Needs(chunks[i], block, p));
    }
    forall e | e in ResultsOf(s) ensures Admissible(chain, e) {
      FlattenMember(ess, e);
    }
  }

  // ----- Chunks of batches -----

  predicate Within(cs: seq<Chunk>, n: nat) {
    forall i :: 0 <= i < |cs| ==> 0 <= cs[i].0 <= cs[i].1 < n
  }

  function ChunkUp(batches: seq<Batch>, cs: seq<Chunk>): (r: seq<seq<Batch>>)
    requires Within(cs, |batches|)
    ensures |r| == |cs| && forall i :: 0 <= i < |cs| ==> r[i] == batches[cs[i].0..cs[i].1 + 1]
  {
    seq(|cs|, i requires 0 <= i < |cs| => batches[cs[i].0..cs[i].1 + 1])
  }

  lemma {:induction false} InEnumeration(cs: seq<Chunk>, k: int)
    ensures k in Enumerate(cs) <==> exists i :: 0 <= i < |cs| && cs[i].0 <= k <= cs[i].1
  {
    if cs != [] {
      InEnumeration(cs[1..], k);
      var r := Range(cs[0].0, cs[0].1);
      if cs[0].0 <= k <= cs[0].1 {
        assert r[k - cs[0].0] == k;
      }
      if k in Enumerate(cs[1..]) {
        var i :| 0 <= i < |cs[1..]| && cs[1..][i].0 <= k <= cs[1..][i].1;
        assert cs[i + 1].0 <= k <= cs[i + 1].1;
      }
      if i :| 0 < i < |cs| && cs[i].0 <= k <= cs[i].1 {
        assert cs[1..][i - 1].0 <= k <= cs[1..][i - 1].1;
      }
    }
  }

  lemma NeededInSomeChunk(batches: seq<Batch>, cs: seq<Chunk>, k: int) returns (i: int)
    requires Within(cs, |batches|) && Enumerate(cs) == Range(0, |batches| - 1) && 0 <= k < |batches|
    ensures 0 <= i < |cs| && cs[i].0 <= k <= cs[i].1 && ChunkUp(batches, cs)[i][k - cs[i].0] == batches[k]
  {
    assert Range(0, |batches| - 1)[k] == k;
    InEnumeration(cs, k);
    i :| 0 <= i < |cs| && cs[i].0 <= k <= cs[i].1;
  }

  lemma ChunkNeedsBatch(batches: seq<Batch>, cs: seq<Chunk>, i: nat, block: int, p: Pair)
    requires Within(cs, |batches|) && i < |cs|
    ensures Needs(ChunkUp(batches, cs)[i], block, p) ==> Needs(batches, block, p)
  {
    var chunk := ChunkUp(batches, cs)[i];
    if j :| 0 <= j < |chunk| && chunk[j].block == block && p in chunk[j].pairs {
      assert batches[cs[i].0 + j] == chunk[j];
    }
  }

  /** Chunking neither loses nor adds a request. */
  lemma ChunksNeedTheSame(batches: seq<Batch>, cs: seq<Chunk>, block: int, p: Pair)
    requires Within(cs, |batches|) && Enumerate(cs) == Range(0, |batches| - 1)
    ensures Needs(batches, block, p) <==>
            exists i :: 0 <= i < |ChunkUp(batches, cs)| && Needs(ChunkUp(batches, cs)[i], block, p)
  {
    if k :| 0 <= k < |batches| && batches[k].block == block && p in batches[k].pairs {
      var i := NeededInSomeChunk(batches, cs, k);
      assert Needs(ChunkUp(batches, cs)[i], block, p);
    }
    forall i | 0 <= i < |cs| ensures Needs(ChunkUp(batches, cs)[i], block, p) ==> Needs(batches, block, p) {
      ChunkNeedsBatch(batches, cs, i, block, p);
    }
  }

  lemma {:induction false} NeedsIsRequested(batches: seq<Batch>, block: int, p: Pair)
    ensures Needs(batches, block, p) <==> Requested(batches, block, p) > 0
  {
    if batches != [] {
      NeedsIsRequested(batches[1..], block, p);
      if Needs(batches[1..], block, p) {
        var i :| 0 <= i < |batches[1..]| && batches[1..][i].block == block && p in batches[1..][i].pairs;
        assert batches[i + 1] == batches[1..][i];
      }
      if i :| 0 < i < |batches| && batches[i].block == block && p in batches[i].pairs {
        assert batches[1..][i - 1] == batches[i];
      }
    }
  }

  /** The chunks of the needed balances, as many as connections are allowed. */
  function ChunkSize(batches: seq<Batch>, concurrency: int): int
    requires concurrency >= 1 && batches != []
  {
    CeilDiv(|batches|, Min(concurrency, |batches|))
  }

  ghost predicate NeededBy(checksum: string -> bool, events: seq<Movement>, block: int, p: Pair) {
    exists i :: 0 <= i < |events| && events[i].blockNumber == block && p in EventPairs(checksum, events[i])
  }

  /** What the tasks of an enrichment start from. */
  function ChunksOf(batches: seq<Batch>, concurrency: int): (chunks: seq<seq<Batch>>)
    requires concurrency >= 1
  {
    if batches == [] then []
    else
      AtMostConcurrencyChunks(0, |batches| - 1, concurrency);
      ChunksPartition(0, |batches| - 1, ChunkSize(batches, concurrency));
      ChunkUp(batches, InclusiveChunks(0, |batches| - 1, ChunkSize(batches, concurrency)))
  }

  function TaskChunks(checksum: string -> bool, events: seq<Movement>, batchSize: int, concurrency: int)
    : (chunks: seq<seq<Batch>>)
    requires batchSize >= 1 && concurrency >= 1
  {
    ChunksOf(BatchesOf(checksum, events, BlocksOf(events, |events|), batchSize), concurrency)
  }

  lemma ChunksOfNeed(batches: seq<Batch>, concurrency: int, block: int, p: Pair)
    requires concurrency >= 1
    ensures var chunks := ChunksOf(batches, concurrency);
            && |chunks| <= concurrency
            && (Needs(batches, block, p) <==> exists i :: 0 <= i < |chunks| && Needs(chunks[i], block, p))
  {
    if batches != [] {
      var size := ChunkSize(batches, concurrency);
      AtMostConcurrencyChunks(0, |batches| - 1, concurrency);
      ChunksPartition(0, |batches| - 1, size);
      ChunksNeedTheSame(batches, InclusiveChunks(0, |batches| - 1, size), block, p);
    }
  }

  lemma TaskChunksNeed(checksum: string -> bool, events: seq<Movement>, batchSize: int, concurrency: int,
                       block: int, p: Pair)
    requires batchSize >= 1 && concurrency >= 1
    ensures var chunks := TaskChunks(checksum, events, batchSize, concurrency);
            && |chunks| <= concurrency
            && ((exists i :: 0 <= i < |chunks| && Needs(chunks[i], block, p)) <==> NeededBy(checksum, events, block, p))
  {
    var batches := BatchesOf(checksum, events, BlocksOf(events, |events|), batchSize);
    RequestedOnce(checksum, events, batchSize, block, p);
    NeedsIsRequested(batches, block, p);
    ChunksOfNeed(batches, concurrency, block, p);
  }

  // ----- Enrichments that share a blacklist -----

  /** The tasks of one enrichment among those of several. */
  function Part(s: System, first: nat, count: nat): System
    requires first + count <= |s.tasks|
  {
    System(s.tasks[first..first + count], s.failures)
  }

  lemma PartOk(chain: Chain, before: seq<seq<Batch>>, chunks: seq<seq<Batch>>, after: seq<seq<Batch>>, s: System)
    requires SystemOk(chain, before + chunks + after, s)
    ensures SystemOk(chain, chunks, Part(s, |before|, |chunks|))
  {
    forall i | 0 <= i < |chunks| ensures TaskOk(chain, chunks[i], Part(s, |before|, |chunks|).tasks[i]) {
      assert (before + chunks + after)[|before| + i] == chunks[i];
      assert TaskOk(chain, (before + chunks + after)[|before| + i], s.tasks[|before| + i]);
    }
  }

  /** The results of the tasks resolve every balance that the transfers need, to the chain's or to a failure. */
  ghost predicate AllResolved(chain: Chain, checksum: string -> bool, events: seq<Movement>, s: System) {
    forall block, p :: NeededBy(checksum, events, block, p) ==>
      var balance := Lookup(MapOf(ResultsOf(s)), block, p);
      balance.Some? && Admissible(chain, Entry(block, p, balance.value))
  }

  lemma DoneResolves(chain: Chain, checksum: string -> bool, events: seq<Movement>, batchSize: int, concurrency: int,
                     s: System)
    requires batchSize >= 1 && concurrency >= 1 && Finished(s)
    requires SystemOk(chain, TaskChunks(checksum, events, batchSize, concurrency), s)
    ensures AllResolved(chain, checksum, events, s)
  {
    var chunks := TaskChunks(checksum, events, batchSize, concurrency);
    FinishedAnswers(chain, chunks, s);
    ResultsAreHex(checksum, events, batchSize, concurrency, chunks, s);
    forall block, p | NeededBy(checksum, events, block, p)
      ensures Lookup(MapOf(ResultsOf(s)), block, p).Some?
      ensures Admissible(chain, Entry(block, p, Lookup(MapOf(ResultsOf(s)), block, p).value))
    {
      TaskChunksNeed(checksum, events, batchSize, concurrency, block, p);
      LookupFacts(ResultsOf(s), block, p);
    }
  }

  /**
   * Whatever the batch size, the number of connections, the blacklist, the failures, the order in which
   * replies come, and the tasks of other enrichments that use the same blacklist at the same time: once all
   * tasks of an enrichment are done, every balance its transfers need is there.
   */
  lemma ResolvedAmongOthers(chain: Chain, checksum: string -> bool, events: seq<Movement>, batchSize: int,
                            concurrency: int, before: seq<seq<Batch>>, after: seq<seq<Batch>>,
                            failures: Option<Failures>, threshold: int, moves: seq<Move>, s: System)
    requires batchSize >= 1 && concurrency >= 1
    requires var chunks := TaskChunks(checksum, events, batchSize, concurrency);
             var start := InitialSystem(before + chunks + after, failures);
             && HonestRun(chain, threshold, start, moves) && RunMoves(threshold, start, moves) == Some(s)
             && |before| + |chunks| <= |s.tasks| && Finished(Part(s, |before|, |chunks|))
    ensures AllResolved(chain, checksum, events,
                     Part(s, |before|, |TaskChunks(checksum, events, batchSize, concurrency)|))
  {
    var chunks := TaskChunks(checksum, events, batchSize, concurrency);
    MovesKeep(chain, before + chunks + after, failures, threshold, moves);
    PartOk(chain, before, chunks, after, s);
    DoneResolves(chain, checksum, events, batchSize, concurrency, Part(s, |before|, |chunks|));
  }

  /** Contracts with a new address and contracts as they are, enriched at once: each list gets all its balances. */
  lemma BothListsResolved(chain: Chain, checksum: string -> bool, olds: seq<Movement>, others: seq<Movement>,
                          batchSize: int, concurrency: int, a: seq<seq<Batch>>, b: seq<seq<Batch>>,
                          failures: Option<Failures>, threshold: int, moves: seq<Move>, s: System)
    requires batchSize >= 1 && concurrency >= 1
    requires a == TaskChunks(checksum, olds, batchSize, concurrency)
    requires b == TaskChunks(checksum, others, batchSize, concurrency)
    requires HonestRun(chain, threshold, InitialSystem(a + b, failures), moves)
    requires RunMoves(threshold, InitialSystem(a + b, failures), moves) == Some(s) && Finished(s)
    ensures |s.tasks| == |a| + |b|
    ensures AllResolved(chain, checksum, olds, Part(s, 0, |a|))
            && AllResolved(chain, checksum, others, Part(s, |a|, |b|))
  {
    assert [] + a + b == a + b && a + b + [] == a + b;
    MovesKeep(chain, a + b, failures, threshold, moves);
    PartOk(chain, [], a, b, s);
    PartOk(chain, a, b, [], s);
    DoneResolves(chain, checksum, olds, batchSize, concurrency, Part(s, 0, |a|));
    DoneResolves(chain, checksum, others, batchSize, concurrency, Part(s, |a|, |b|));
  }

  /** In particular when there is one enrichment, once no task threw and all are done. */
  lemma EveryBalanceResolved(chain: Chain, checksum: string -> bool, events: seq<Movement>, batchSize: int,
                             concurrency: int, failures: Option<Failures>, threshold: int, moves: seq<Move>, s: System,
                             block: int, p: Pair)
    requires batchSize >= 1 && concurrency >= 1
    requires var start := InitialSystem(TaskChunks(checksum, events, batchSize, concurrency), failures);
             HonestRun(chain, threshold, start, moves) && RunMoves(threshold, start, moves) == Some(s)
    requires Finished(s) && NeededBy(checksum, events, block, p)
    ensures var balance := Lookup(MapOf(ResultsOf(s)), block, p);
            balance.Some? && Admissible(chain, Entry(block, p, balance.value))
  {
    MovesKeep(chain, TaskChunks(checksum, events, batchSize, concurrency), failures, threshold, moves);
    DoneResolves(chain, checksum, events, batchSize, concurrency, s);
  }

  lemma ResultsAreHex(checksum: string -> bool, events: seq<Movement>, batchSize: int, concurrency: int,
                      chunks: seq<seq<Batch>>, s: System)
    requires batchSize >= 1 && concurrency >= 1 && chunks == TaskChunks(checksum, events, batchSize, concurrency)
    requires forall block, p :: Answered(ResultsOf(s), block, p) <==>
               exists i :: 0 <= i < |chunks| && Needs(chunks[i], block, p)
    ensures HexEntries(ResultsOf(s))
  {
    var es := ResultsOf(s);
    forall i | 0 <= i < |es| ensures HexShape(es[i].pair.address) {
      assert Answered(es, es[i].block, es[i].pair);
      TaskChunksNeed(checksum, events, batchSize, concurrency, es[i].block, es[i].pair);
    }
  }

  // ----- Without a blacklist and without failing calls -----

  /** The move is the start of a batch, or a reply that decodes for every pair of the request. */
  ghost predicate CleanMove(s: System, m: Move) {
    m.task < |s.tasks| ==>
      match m
      case Start(_) => true
      case BatchReply(_, reply) =>
        s.tasks[m.task].phase.AwaitBatch? ==>
          && reply.Values? && |reply.raws| == |s.tasks[m.task].phase.toRequest|
          && forall k :: 0 <= k < |reply.raws| ==> reply.raws[k].Decoded?
      case SinglesReply(_, _) => true
  }

  ghost predicate CleanRun(threshold: int, s: System, moves: seq<Move>) {
    moves != [] ==>
      var before := RunMoves(threshold, s, moves[..|moves| - 1]);
      && CleanRun(threshold, s, moves[..|moves| - 1])
      && (before.Some? ==> CleanMove(before.value, moves[|moves| - 1]))
  }

  ghost predicate AllAmounts(es: seq<Entry>) {
    forall i :: 0 <= i < |es| ==> es[i].balance.Amount?
  }

  ghost predicate NoFailureYet(s: System) {
    && s.failures.None?
    && forall i :: 0 <= i < |s.tasks| ==>
         && AllAmounts(s.tasks[i].results) && !s.tasks[i].phase.AwaitSingles?
         && (s.tasks[i].phase.AwaitBatch? ==> s.tasks[i].phase.skipped == [])
  }

  lemma CleanMoveKeeps(threshold: int, s: System, m: Move)
    requires NoFailureYet(s) && CleanMove(s, m) && Next(threshold, s, m).Some?
    ensures NoFailureYet(Next(threshold, s, m).value)
  {
    match m
    case Start(i) => NothingSkipped(s.tasks[i].todo[0].pairs, threshold);
    case BatchReply(i, reply) =>
    case SinglesReply(i, replies) =>
  }

  lemma {:induction false} CleanMovesKeep(chunks: seq<seq<Batch>>, threshold: int, moves: seq<Move>)
    requires CleanRun(threshold, InitialSystem(chunks, None), moves)
    requires RunMoves(threshold, InitialSystem(chunks, None), moves).Some?
    ensures NoFailureYet(RunMoves(threshold, InitialSystem(chunks, None), moves).value)
  {
    if moves != [] {
      CleanMovesKeep(chunks, threshold, moves[..|moves| - 1]);
      CleanMoveKeeps(threshold, RunMoves(threshold, InitialSystem(chunks, None), moves[..|moves| - 1]).value,
                     moves[|moves| - 1]);
    }
  }

  /** A balance that is there, and no failure, is the chain's. */
  lemma CleanLookup(chain: Chain, s: System, block: int, p: Pair)
    requires NoFailureYet(s) && HexEntries(ResultsOf(s)) && HexShape(p.address)
    requires Lookup(MapOf(ResultsOf(s)), block, p).Some?
    requires Admissible(chain, Entry(block, p, Lookup(MapOf(ResultsOf(s)), block, p).value))
    ensures chain(block, p).Some? && Lookup(MapOf(ResultsOf(s)), block, p) == Some(Amount(chain(block, p).value))
  {
    LookupFacts(ResultsOf(s), block, p);
    FlattenMember(MapSeq(s.tasks, (t: Task) => t.results),
                  Entry(block, p, Lookup(MapOf(ResultsOf(s)), block, p).value));
  }

  lemma ResultsOfDoneAreHex(chain: Chain, checksum: string -> bool, events: seq<Movement>, batchSize: int,
                            concurrency: int, s: System, block: int, p: Pair)
    requires batchSize >= 1 && concurrency >= 1 && Finished(s) && NeededBy(checksum, events, block, p)
    requires SystemOk(chain, TaskChunks(checksum, events, batchSize, concurrency), s)
    ensures HexEntries(ResultsOf(s)) && HexShape(p.address)
  {
    var chunks := TaskChunks(checksum, events, batchSize, concurrency);
    FinishedAnswers(chain, chunks, s);
    ResultsAreHex(checksum, events, batchSize, concurrency, chunks, s);
  }

  /** Then every balance is the one the chain gives for the transfer's own block, address and contract. */
  lemma AgreesWithNaiveLookup(chain: Chain, checksum: string -> bool, events: seq<Movement>, batchSize: int,
                              concurrency: int, threshold: int, moves: seq<Move>, s: System, block: int, p: Pair)
    requires batchSize >= 1 && concurrency >= 1
    requires var start := InitialSystem(TaskChunks(checksum, events, batchSize, concurrency), None);
             && HonestRun(chain, threshold, start, moves) && CleanRun(threshold, start, moves)
             && RunMoves(threshold, start, moves) == Some(s)
    requires Finished(s) && NeededBy(checksum, events, block, p)
    ensures chain(block, p).Some?
    ensures Lookup(MapOf(ResultsOf(s)), block, p) == Some(Amount(chain(block, p).value))
  {
    var chunks := TaskChunks(checksum, events, batchSize, concurrency);
    CleanMovesKeep(chunks, threshold, moves);
    MovesKeep(chain, chunks, None, threshold, moves);
    DoneResolves(chain, checksum, events, batchSize, concurrency, s);
    ResultsOfDoneAreHex(chain, checksum, events, batchSize, concurrency, s, block, p);
    CleanLookup(chain, s, block, p);
  }

  // ----- Writing the balances into the transfers -----

  function SideBalance(checksum: string -> bool, m: BalanceMap, e: Movement, address: string): Option<Balance> {
    Lookup(m, e.blockNumber, Pair(address, e.contract))
  }

  /** Each eligible side has a balance in the map. */
  predicate Serves(checksum: string -> bool, m: BalanceMap, e: Movement) {
    && (Eligible(checksum, e.sender, e.contract) ==> SideBalance(checksum, m, e, e.sender).Some?)
    && (Eligible(checksum, e.receiver, e.contract) ==> SideBalance(checksum, m, e, e.receiver).Some?)
  }

  /** The eligible sides get their balances, the others keep what they have. */
  function Filled(checksum: string -> bool, m: BalanceMap, e: Movement, before: Sides): Sides {
    Sides(if Eligible(checksum, e.sender, e.contract) then SideBalance(checksum, m, e, e.sender) else before.sender,
          if Eligible(checksum, e.receiver, e.contract) then SideBalance(checksum, m, e, e.receiver)
              else before.receiver)
  }

  /** Both balances of an event, or an error when an eligible side has none. */
  method AssignBalances(event: Transfer, checksum: string -> bool, balanceMap: BalanceMap) returns (r: Result<()>)
    modifies event
    ensures r.Ok? <==> Serves(checksum, balanceMap, event.movement)
    ensures r.Ok? ==> event.Balances() == Filled(checksum, balanceMap, event.movement, old(event.Balances()))
  {
    var e := event.movement;
    if Eligible(checksum, e.sender, e.contract) {
      event.fromBalance := Lookup(balanceMap, e.blockNumber, Pair(e.sender, e.contract));
      if event.fromBalance.None? {
        return Err("'from' balance should have been resolved");
      }
    }
    if Eligible(checksum, e.receiver, e.contract) {
      event.toBalance := Lookup(balanceMap, e.blockNumber, Pair(e.receiver, e.contract));
      if event.toBalance.None? {
        return Err("'to' balance should have been resolved");
      }
    }
    return Ok(());
  }

  /** A side of a transfer holds what the chain says or a failure, and is untouched when not eligible. */
  ghost predicate SideOk(chain: Chain, checksum: string -> bool, e: Movement, address: string,
                         before: Option<Balance>, after: Option<Balance>) {
    if Eligible(checksum, address, e.contract)
    then after.Some? && Admissible(chain, Entry(e.blockNumber, Pair(address, e.contract), after.value))
    else after == before
  }

  /** Both sides do. */
  ghost predicate SidesOk(chain: Chain, checksum: string -> bool, e: Movement, before: Sides, after: Sides) {
    && SideOk(chain, checksum, e, e.sender, before.sender, after.sender)
    && SideOk(chain, checksum, e, e.receiver, before.receiver, after.receiver)
  }

  ghost predicate MapServes(chain: Chain, checksum: string -> bool, events: seq<Movement>, m: BalanceMap) {
    forall block, p :: NeededBy(checksum, events, block, p) ==>
      Lookup(m, block, p).Some? && Admissible(chain, Entry(block, p, Lookup(m, block, p).value))
  }

  lemma SideServed(chain: Chain, checksum: string -> bool, events: seq<Movement>, m: BalanceMap, e: Movement,
                   address: string)
    requires MapServes(chain, checksum, events, m) && e in events && Eligible(checksum, address, e.contract)
    requires address == e.sender || address == e.receiver
    ensures var balance := SideBalance(checksum, m, e, address);
            balance.Some? && Admissible(chain, Entry(e.blockNumber, Pair(address, e.contract), balance.value))
  {
    var i :| 0 <= i < |events| && events[i] == e;
    assert Pair(address, e.contract) in EventPairs(checksum, events[i]);
    assert NeededBy(checksum, events, e.blockNumber, Pair(address, e.contract));
  }

  /** A map that resolves what the transfers need fills each of them rightly. */
  lemma FilledRightly(chain: Chain, checksum: string -> bool, events: seq<Movement>, m: BalanceMap, e: Movement,
                      before: Sides)
    requires MapServes(chain, checksum, events, m) && e in events
    ensures Serves(checksum, m, e) && SidesOk(chain, checksum, e, before, Filled(checksum, m, e, before))
  {
    if Eligible(checksum, e.sender, e.contract) {
      SideServed(chain, checksum, events, m, e, e.sender);
    }
    if Eligible(checksum, e.receiver, e.contract) {
      SideServed(chain, checksum, events, m, e, e.receiver);
    }
  }

  /** What an event's balances have become. */
  ghost predicate Enriched(chain: Chain, checksum: string -> bool, m: BalanceMap, e: Movement, before: Sides,
                           after: Sides) {
    after == Filled(checksum, m, e, before) && SidesOk(chain, checksum, e, before, after)
  }

  ghost function SidesOf(events: seq<Transfer>): (r: seq<Sides>)
    reads events
    ensures |r| == |events| && forall i :: 0 <= i < |r| ==> r[i] == events[i].Balances()
  {
    seq(|events|, i requires 0 <= i < |events| reads events => events[i].Balances())
  }

  method AssignOne(ghost chain: Chain, checksum: string -> bool, ghost events: seq<Movement>, event: Transfer,
                   balanceMap: BalanceMap)
    returns (r: Result<()>)
    requires MapServes(chain, checksum, events, balanceMap) && event.movement in events
    modifies event
    ensures r.Ok?
    ensures Enriched(chain, checksum, balanceMap, event.movement, old(event.Balances()), event.Balances())
  {
    FilledRightly(chain, checksum, events, balanceMap, event.movement, event.Balances());
    r := AssignBalances(event, checksum, balanceMap);
  }

  ghost predicate AllEnriched(chain: Chain, checksum: string -> bool, m: BalanceMap, movements: seq<Movement>,
                              before: seq<Sides>, after: seq<Sides>) {
    && |movements| == |before| == |after|
    && forall i :: 0 <= i < |after| ==> Enriched(chain, checksum, m, movements[i], before[i], after[i])
  }

  lemma EnrichedSnoc(chain: Chain, checksum: string -> bool, m: BalanceMap, movements: seq<Movement>,
                     before: seq<Sides>, after: seq<Sides>, next: Sides)
    requires var i := |after|;
             && i < |movements| == |before|
             && AllEnriched(chain, checksum, m, movements[..i], before[..i], after)
             && Enriched(chain, checksum, m, movements[i], before[i], next)
    ensures AllEnriched(chain, checksum, m, movements[..|after| + 1], before[..|after| + 1], after + [next])
  {
    var i := |after|;
    forall j | 0 <= j < i + 1
      ensures Enriched(chain, checksum, m, movements[..i + 1][j], before[..i + 1][j], (after + [next])[j])
    {
      if j < i {
        assert movements[..i + 1][j] == movements[..i][j] && before[..i + 1][j] == before[..i][j];
      }
    }
  }

  method AssignAll(ghost chain: Chain, checksum: string -> bool, events: seq<Transfer>, balanceMap: BalanceMap)
    returns (r: Result<()>)
    requires MapServes(chain, checksum, Movements(events), balanceMap)
    requires forall i, j :: 0 <= i < j < |events| ==> events[i] != events[j]
    modifies events
    ensures r.Ok?
    ensures forall e :: e in events ==>
              Enriched(chain, checksum, balanceMap, e.movement, old(e.Balances()), e.Balances())
  {
    ghost var movements, before, after := Movements(events), SidesOf(events), [];
    for i := 0 to |events|
      invariant |after| == i && AllEnriched(chain, checksum, balanceMap, movements[..i], before[..i], after)
      invariant forall j :: 0 <= j < |events| ==> events[j].Balances() == if j < i then after[j] else before[j]
    {
      assert movements[i] in movements;
      r := AssignOne(chain, checksum, movements, events[i], balanceMap);
      EnrichedSnoc(chain, checksum, balanceMap, movements, before, after, events[i].Balances());
      after := after + [events[i].Balances()];
    }
    assert movements[..|events|] == movements && before[..|events|] == before;
    return Ok(());
  }

  /**
   * The whole enrichment, for any schedule of replies up to where all tasks are done, or to any point after one
   * threw: it fails exactly when a task threw, and otherwise every transfer gets the balances it is eligible for.
   */
  method ExtendTransfersWithBalances(ghost chain: Chain, checksum: string -> bool, events: seq<Transfer>,
                                     batchSize: int, concurrency: int, failures: Option<Failures>, threshold: int,
                                     moves: seq<Move>)
    returns (r: Result<()>, failures': Option<Failures>)
    requires batchSize >= 1 && concurrency >= 1
    requires forall i, j :: 0 <= i < j < |events| ==> events[i] != events[j]
    requires var start := InitialSystem(TaskChunks(checksum, Movements(events), batchSize, concurrency), failures);
             && HonestRun(chain, threshold, start, moves) && RunMoves(threshold, start, moves).Some?
             && (Finished(RunMoves(threshold, start, moves).value)
                 || SomeThrew(RunMoves(threshold, start, moves).value))
    modifies events
    ensures var start := InitialSystem(TaskChunks(checksum, Movements(events), batchSize, concurrency), failures);
            && (r.Err? <==> SomeThrew(RunMoves(threshold, start, moves).value))
            && failures' == RunMoves(threshold, start, moves).value.failures
    ensures r.Ok? ==> forall e :: e in events ==>
              SidesOk(chain, checksum, e.movement, old(e.Balances()), e.Balances())
  {
    var movements := Movements(events);
    var batches := BatchAddresses(checksum, movements, batchSize);
    var start := InitialSystem(ChunksOf(batches, concurrency), failures);
    var final := RunMoves(threshold, start, moves).value;
    failures' := final.failures;
    if SomeThrew(final) {
      return Err("multicall"), failures';
    }
    var balanceMap := ReduceToMap(ResultsOf(final));
    MovesKeep(chain, ChunksOf(batches, concurrency), failures, threshold, moves);
    DoneResolves(chain, checksum, movements, batchSize, concurrency, final);
    r := AssignAll(chain, checksum, events, balanceMap);
  }
}

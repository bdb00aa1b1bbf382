/** How requests use and feed the shared blacklist: the helpers of getBalancesPerBlock in erc20/lib/add_balances.ts. */
module BlacklistUse {
  import opened Common
  import opened BalanceUtils
  import opened MulticallBlacklists
  import opened AddBalances

  /** The failures a blacklist has counted, when there is a blacklist. */
  function Counted(blacklist: MulticallBlacklist?): Option<Failures>
    reads blacklist
  {
    if blacklist == null then None else Some(blacklist.consecutiveFailures)
  }

  function Threshold(blacklist: MulticallBlacklist?): int {
    if blacklist == null then 0 else blacklist.failureThreshold
  }

  method SplitPerBlacklist(pairs: seq<Pair>, block: int, blacklist: MulticallBlacklist?)
    returns (toRequest: seq<Pair>, skipped: seq<Entry>)
    ensures toRequest == ToRequest(pairs, Counted(blacklist), Threshold(blacklist))
    ensures skipped == SkippedEntries(block, Skipped(pairs, Counted(blacklist), Threshold(blacklist)))
  {
    if blacklist == null {
      NothingSkipped(pairs, 0);
      return pairs, [];
    }
    toRequest, skipped := [], [];
    ghost var failures, threshold := Counted(blacklist), Threshold(blacklist);
    for i := 0 to |pairs|
      invariant toRequest == ToRequest(pairs[..i], failures, threshold)
      invariant skipped == SkippedEntries(block, Skipped(pairs[..i], failures, threshold))
    {
      FilterStep(pairs, Asker(failures, threshold), i);
      FilterStep(pairs, Skipper(failures, threshold), i);
      var listed := blacklist.IsBlacklisted(pairs[i].contract);
      if listed {
        skipped := skipped + [Entry(block, pairs[i], MulticallFailure)];
      } else {
        toRequest := toRequest + [pairs[i]];
      }
    }
    assert pairs[..|pairs|] == pairs;
  }

  // ----- Statistics per contract -----

  datatype Stats = Stats(failed: nat, total: nat)

  function TotalOf(es: seq<Entry>, contract: string): nat {
    if es == [] then 0
    else TotalOf(es[..|es| - 1], contract) + if es[|es| - 1].pair.contract == contract then 1 else 0
  }

  function FailedOf(es: seq<Entry>, contract: string): nat {
    if es == [] then 0
    else FailedOf(es[..|es| - 1], contract)
         + if es[|es| - 1].pair.contract == contract && es[|es| - 1].balance.MulticallFailure? then 1 else 0
  }

  /** As many failures as answers mean that every answer for the contract is a failure. */
  lemma {:induction false} FailedIsTotalIff(es: seq<Entry>, contract: string)
    ensures FailedOf(es, contract) <= TotalOf(es, contract)
    ensures FailedOf(es, contract) == TotalOf(es, contract) <==> EveryFailed(es, contract)
  {
    if es != [] {
      var init := es[..|es| - 1];
      FailedIsTotalIff(init, contract);
      assert EveryFailed(es, contract) ==> EveryFailed(init, contract);
    }
  }

  ghost predicate StatsOf(stats: map<string, Stats>, es: seq<Entry>) {
    && (forall c :: c in stats <==> c in ContractsOf(es))
    && forall c :: c in stats ==> stats[c] == Stats(FailedOf(es, c), TotalOf(es, c))
  }

  lemma {:induction false} UnlistedHasNone(es: seq<Entry>, contract: string)
    requires contract !in ContractsOf(es)
    ensures TotalOf(es, contract) == 0 && FailedOf(es, contract) == 0
  {
    if es != [] {
      UnlistedHasNone(es[..|es| - 1], contract);
    }
  }

  function Counts(stats: map<string, Stats>, e: Entry): Stats {
    var before := if e.pair.contract in stats then stats[e.pair.contract] else Stats(0, 0);
    Stats(before.failed + if e.balance.MulticallFailure? then 1 else 0, before.total + 1)
  }

  lemma StatsStep(es: seq<Entry>, e: Entry, stats: map<string, Stats>)
    requires StatsOf(stats, es)
    ensures StatsOf(stats[e.pair.contract := Counts(stats, e)], es + [e])
    ensures ContractsOf(es + [e]) ==
            if e.pair.contract in stats then ContractsOf(es) else ContractsOf(es) + [e.pair.contract]
  {
    assert (es + [e])[..|es|] == es;
    if e.pair.contract !in stats {
      UnlistedHasNone(es, e.pair.contract);
    }
  }

  /** The contracts in order of first appearance, and what was counted for each. */
  method ComputeContractStats(balances: seq<Entry>) returns (order: seq<string>, stats: map<string, Stats>)
    ensures order == ContractsOf(balances) && StatsOf(stats, balances)
  {
    order, stats := [], map[];
    for i := 0 to |balances|
      invariant order == ContractsOf(balances[..i]) && StatsOf(stats, balances[..i])
    {
      var e := balances[i];
      assert balances[..i + 1] == balances[..i] + [e];
      StatsStep(balances[..i], e, stats);
      if e.pair.contract !in stats {
        order := order + [e.pair.contract];
      }
      stats := stats[e.pair.contract := Counts(stats, e)];
    }
    assert balances[..|balances|] == balances;
  }

  lemma SignalsStep(es: seq<Entry>, failures: Failures, k: nat)
    requires k < |ContractsOf(es)|
    ensures RecordAll(failures, SignalsOf(es)[..k + 1])
         == Record(RecordAll(failures, SignalsOf(es)[..k]), SignalOf(es, ContractsOf(es)[k]))
  {
    assert SignalsOf(es)[..k + 1][..k] == SignalsOf(es)[..k];
  }

  /** Feed the outcome of a request to the blacklist. */
  method RecordBlacklistSignals(order: seq<string>, stats: map<string, Stats>, blacklist: MulticallBlacklist,
                                ghost es: seq<Entry>)
    requires order == ContractsOf(es) && StatsOf(stats, es)
    modifies blacklist
    ensures blacklist.consecutiveFailures == RecordAll(old(blacklist.consecutiveFailures), SignalsOf(es))
  {
    ghost var before := blacklist.consecutiveFailures;
    for k := 0 to |order|
      invariant blacklist.consecutiveFailures == RecordAll(before, SignalsOf(es)[..k])
    {
      assert order[k] in ContractsOf(es);
      FailedIsTotalIff(es, order[k]);
      SignalsStep(es, before, k);
      if stats[order[k]].failed < stats[order[k]].total {
        blacklist.RecordCleanResult(order[k]);
      } else {
        blacklist.RecordAllFailed(order[k]);
      }
    }
    assert SignalsOf(es)[..|order|] == SignalsOf(es);
  }

  /** What a request got: the decoded answers to the batch, or to the single calls when that failed. */
  function Answers(toRequest: seq<Pair>, reply: Reply, replies: seq<Reply>): Result<seq<Balance>> {
    match BatchResult(toRequest, reply)
    case Some(balances) => Ok(balances)
    case None => NonBatchResult(replies)
  }

  /** What a request makes of one batch, and what the blacklist has counted then. */
  function Outcome(batch: Batch, failures: Option<Failures>, threshold: int, reply: Reply, replies: seq<Reply>)
    : (Result<seq<Entry>>, Option<Failures>)
    requires |replies| == |ToRequest(batch.pairs, failures, threshold)|
  {
    var toRequest := ToRequest(batch.pairs, failures, threshold);
    var skipped := SkippedEntries(batch.block, Skipped(batch.pairs, failures, threshold));
    if toRequest == [] then (Ok(skipped), failures)
    else
      match Answers(toRequest, reply, replies)
      case Err(error) => (Err(error), failures)
      case Ok(balances) =>
        var es := EntriesOf(batch.block, toRequest, balances);
        (Ok(skipped + es), if failures.None? then None else Some(RecordAll(failures.value, SignalsOf(es))))
  }

  /** Balances of one batch, given what the node replies to the batch, and to each pair when asked one by one. */
  method GetBalancesPerBlock(batch: Batch, blacklist: MulticallBlacklist?, reply: Reply, replies: seq<Reply>)
    returns (r: Result<seq<Entry>>)
    requires |replies| == |ToRequest(batch.pairs, Counted(blacklist), Threshold(blacklist))|
    modifies blacklist
    ensures (r, Counted(blacklist)) ==
            Outcome(batch, old(Counted(blacklist)), Threshold(blacklist), reply, replies)
  {
    var toRequest, skipped := SplitPerBlacklist(batch.pairs, batch.block, blacklist);
    if toRequest == [] {
      return Ok(skipped);
    }
    var balances := Answers(toRequest, reply, replies);
    if balances.Err? {
      return Err(balances.error);
    }
    var es := EntriesOf(batch.block, toRequest, balances.value);
    var order, stats := ComputeContractStats(es);
    if blacklist != null {
      RecordBlacklistSignals(order, stats, blacklist, es);
    }
    return Ok(skipped + es);
  }

  // ----- When a contract leaves the blacklist -----

  lemma {:induction false} OnlyRecordedChange(failures: Failures, signals: seq<Signal>, contract: string)
    requires forall i :: 0 <= i < |signals| ==> signals[i].contract != contract
    ensures FailuresOf(RecordAll(failures, signals), contract) == FailuresOf(failures, contract)
  {
    if signals != [] {
      OnlyRecordedChange(failures, signals[..|signals| - 1], contract);
    }
  }

  lemma {:induction false} ContractsAreOfEntries(es: seq<Entry>, contract: string)
    ensures contract in ContractsOf(es) <==> exists i :: 0 <= i < |es| && es[i].pair.contract == contract
  {
    if es != [] {
      ContractsAreOfEntries(es[..|es| - 1], contract);
    }
  }

  /** The pairs being requested ask about the contract. */
  predicate AsksAbout(pairs: seq<Pair>, contract: string) {
    exists p :: p in pairs && p.contract == contract
  }

  lemma {:induction false} ContractsOnce(es: seq<Entry>)
    ensures NoDuplicates(ContractsOf(es))
  {
    if es != [] {
      ContractsOnce(es[..|es| - 1]);
    }
  }

  lemma PrefixStep(s: seq<string>, k: nat, x: string)
    requires NoDuplicates(s) && k < |s|
    ensures x in s[..k + 1] <==> x in s[..k] || x == s[k]
    ensures s[k] !in s[..k]
  {
    assert s[..k + 1] == s[..k] + [s[k]];
  }

  lemma SignalEffect(es: seq<Entry>, failures: Failures, signalled: string, contract: string)
    ensures FailuresOf(Record(failures, SignalOf(es, signalled)), contract) ==
            if signalled != contract then FailuresOf(failures, contract)
            else if EveryFailed(es, contract) then FailuresOf(failures, contract) + 1 else 0
  {
  }

  /** What the signals of an answer do to a contract's count: one up if all of it failed, else forgotten. */
  lemma {:induction false} SignalsEffect(es: seq<Entry>, failures: Failures, contract: string, k: nat)
    requires k <= |ContractsOf(es)|
    ensures FailuresOf(RecordAll(failures, SignalsOf(es)[..k]), contract) ==
            if contract !in ContractsOf(es)[..k] then FailuresOf(failures, contract)
            else if EveryFailed(es, contract) then FailuresOf(failures, contract) + 1 else 0
  {
    if k > 0 {
      var before := RecordAll(failures, SignalsOf(es)[..k - 1]);
      SignalsEffect(es, failures, contract, k - 1);
      SignalsStep(es, failures, k - 1);
      SignalEffect(es, before, ContractsOf(es)[k - 1], contract);
      ContractsOnce(es);
      PrefixStep(ContractsOf(es), k - 1, contract);
    }
  }

  /** One of the pairs about the contract got an amount. */
  predicate Resolved(pairs: seq<Pair>, balances: seq<Balance>, contract: string)
    requires |pairs| == |balances|
  {
    exists k :: 0 <= k < |pairs| && pairs[k].contract == contract && balances[k].Amount?
  }

  lemma AnswerEffect(block: int, pairs: seq<Pair>, balances: seq<Balance>, failures: Failures, contract: string)
    requires |pairs| == |balances|
    ensures var after := RecordAll(failures, SignalsOf(EntriesOf(block, pairs, balances)));
            FailuresOf(after, contract) ==
            if Resolved(pairs, balances, contract) then 0
            else FailuresOf(failures, contract) + if AsksAbout(pairs, contract) then 1 else 0
  {
    var es := EntriesOf(block, pairs, balances);
    SignalsEffect(es, failures, contract, |ContractsOf(es)|);
    assert SignalsOf(es)[..|ContractsOf(es)|] == SignalsOf(es);
    assert ContractsOf(es)[..|ContractsOf(es)|] == ContractsOf(es);
    ContractsAreOfEntries(es, contract);
    if AsksAbout(pairs, contract) {
      var p :| p in pairs && p.contract == contract;
      var k :| 0 <= k < |pairs| && pairs[k] == p;
      assert es[k].pair.contract == contract;
    }
    if contract in ContractsOf(es) {
      var k :| 0 <= k < |es| && es[k].pair.contract == contract;
      assert pairs[k] in pairs;
    }
    assert EveryFailed(es, contract) <==> !Resolved(pairs, balances, contract);
  }

  predicate IsListed(s: System, threshold: int, contract: string) {
    s.failures.Some? && Blacklisted(s.failures.value, threshold, contract)
  }

  /** An answer takes a listed contract off exactly when one of its requested pairs got an amount. */
  lemma FinishTakesOffIff(s: System, i: nat, balances: seq<Balance>, threshold: int, contract: string)
    requires i < |s.tasks| && s.tasks[i].todo != [] && Asking(s.tasks[i].phase)
    requires |balances| == |s.tasks[i].phase.toRequest| && threshold >= 1 && IsListed(s, threshold, contract)
    ensures !IsListed(Finish(s, i, balances), threshold, contract) <==>
            Resolved(s.tasks[i].phase.toRequest, balances, contract)
  {
    AnswerEffect(s.tasks[i].todo[0].block, s.tasks[i].phase.toRequest, balances, s.failures.value, contract);
  }

  /** The move is the answer to a request, and holds an amount for a pair of the contract. */
  predicate Resolves(s: System, m: Move, contract: string) {
    && m.task < |s.tasks|
    && var phase := s.tasks[m.task].phase;
       match m
       case Start(_) => false
       case BatchReply(_, reply) =>
         phase.AwaitBatch? && BatchResult(phase.toRequest, reply).Some?
         && Resolved(phase.toRequest, BatchResult(phase.toRequest, reply).value, contract)
       case SinglesReply(_, replies) =>
         phase.AwaitSingles? && |replies| == |phase.toRequest| && NonBatchResult(replies).Ok?
         && Resolved(phase.toRequest, NonBatchResult(replies).value, contract)
  }

  /** A move takes a listed contract off the blacklist exactly when it brings an amount for it. */
  lemma MoveTakesOffIff(threshold: int, s: System, m: Move, contract: string)
    requires threshold >= 1 && Next(threshold, s, m).Some? && IsListed(s, threshold, contract)
    ensures !IsListed(Next(threshold, s, m).value, threshold, contract) <==> Resolves(s, m, contract)
  {
    var phase := s.tasks[m.task].phase;
    match m
    case Start(_) =>
    case BatchReply(i, reply) =>
      if BatchResult(phase.toRequest, reply).Some? {
        FinishTakesOffIff(s, i, BatchResult(phase.toRequest, reply).value, threshold, contract);
      }
    case SinglesReply(i, replies) =>
      if NonBatchResult(replies).Ok? {
        FinishTakesOffIff(s, i, NonBatchResult(replies).value, threshold, contract);
      }
  }

  /** A request that asks about the contract is under way in task i. */
  predicate AskedBy(s: System, i: nat, contract: string) {
    i < |s.tasks| && s.tasks[i].todo != [] && Asking(s.tasks[i].phase)
        && AsksAbout(s.tasks[i].phase.toRequest, contract)
  }

  predicate Asked(s: System, contract: string) {
    exists i :: 0 <= i < |s.tasks| && AskedBy(s, i, contract)
  }

  lemma ResolvesIsAsked(s: System, m: Move, contract: string)
    requires Resolves(s, m, contract) && s.tasks[m.task].todo != []
    ensures Asked(s, contract)
  {
    var phase := s.tasks[m.task].phase;
    var balances := if m.BatchReply? then BatchResult(phase.toRequest, m.reply).value
        else NonBatchResult(m.replies).value;
    assert Resolved(phase.toRequest, balances, contract);
    var k :| 0 <= k < |phase.toRequest| && phase.toRequest[k].contract == contract && balances[k].Amount?;
    assert phase.toRequest[k] in phase.toRequest;
    assert AskedBy(s, m.task, contract);
  }

  lemma NotRequested(pairs: seq<Pair>, s: System, threshold: int, contract: string)
    requires IsListed(s, threshold, contract)
    ensures !AsksAbout(ToRequest(pairs, s.failures, threshold), contract)
  {
    if AsksAbout(ToRequest(pairs, s.failures, threshold), contract) {
      var p :| p in ToRequest(pairs, s.failures, threshold) && p.contract == contract;
      FilterMember(pairs, Asker(s.failures, threshold), p);
    }
  }

  /** No move asks about a listed contract. */
  lemma NeverAskedAnew(threshold: int, s: System, m: Move, contract: string, i: nat)
    requires Next(threshold, s, m).Some? && IsListed(s, threshold, contract)
    requires AskedBy(Next(threshold, s, m).value, i, contract)
    ensures AskedBy(s, i, contract)
  {
    if m == Start(i) {
      NotRequested(s.tasks[i].todo[0].pairs, s, threshold, contract);
    }
  }

  lemma UnaskedMove(threshold: int, s: System, m: Move, contract: string)
    requires threshold >= 1 && Next(threshold, s, m).Some? && IsListed(s, threshold, contract) && !Asked(s, contract)
    ensures var s' := Next(threshold, s, m).value;
            IsListed(s', threshold, contract) && !Asked(s', contract)
  {
    var s' := Next(threshold, s, m).value;
    MoveTakesOffIff(threshold, s, m, contract);
    if Resolves(s, m, contract) {
      ResolvesIsAsked(s, m, contract);
    }
    if Asked(s', contract) {
      var i :| 0 <= i < |s'.tasks| && AskedBy(s', i, contract);
      NeverAskedAnew(threshold, s, m, contract, i);
    }
  }

  /**
   * Listed, with nothing under way that asks about it, a contract stays listed over any run, however requests overlap.
   */
  lemma {:induction false} UnaskedStaysListed(threshold: int, s: System, moves: seq<Move>, contract: string)
    requires threshold >= 1 && RunMoves(threshold, s, moves).Some? && IsListed(s, threshold, contract)
             && !Asked(s, contract)
    ensures var s' := RunMoves(threshold, s, moves).value;
            IsListed(s', threshold, contract) && !Asked(s', contract)
  {
    if moves != [] {
      var init := moves[..|moves| - 1];
      UnaskedStaysListed(threshold, s, init, contract);
      UnaskedMove(threshold, RunMoves(threshold, s, init).value, moves[|moves| - 1], contract);
    }
  }

  function AllZero(n: nat): (r: seq<Raw>)
    ensures |r| == n && forall k :: 0 <= k < n ==> r[k] == Decoded(0)
  {
    seq(n, _ => Decoded(0))
  }

  function AllOne(n: nat): (r: seq<Reply>)
    ensures |r| == n && forall k :: 0 <= k < n ==> r[k] == Values([Decoded(0)])
  {
    seq(n, _ => Values([Decoded(0)]))
  }

  /** A request under way can be answered so that the contract leaves the blacklist. */
  lemma PendingCanTakeOff(threshold: int, s: System, i: nat, contract: string) returns (m: Move)
    requires threshold >= 1 && IsListed(s, threshold, contract) && AskedBy(s, i, contract)
    ensures m.task == i && Next(threshold, s, m).Some? && !IsListed(Next(threshold, s, m).value, threshold, contract)
  {
    var toRequest := s.tasks[i].phase.toRequest;
    var p :| p in toRequest && p.contract == contract;
    var k :| 0 <= k < |toRequest| && toRequest[k] == p;
    if s.tasks[i].phase.AwaitBatch? {
      m := BatchReply(i, Values(AllZero(|toRequest|)));
      assert BatchResult(toRequest, m.reply).value[k] == Amount(0);
    } else {
      m := SinglesReply(i, AllOne(|toRequest|));
      assert !AllRejected(m.replies) by { assert !m.replies[k].Rejected?; }
      assert NonBatchResult(m.replies).value[k] == Amount(0);
    }
    assert Resolves(s, m, contract);
    MoveTakesOffIff(threshold, s, m, contract);
  }

  /** Some run takes the contract off the blacklist. */
  ghost predicate CanLeave(threshold: int, s: System, contract: string) {
    exists moves :: RunMoves(threshold, s, moves).Some?
        && !IsListed(RunMoves(threshold, s, moves).value, threshold, contract)
  }

  /** A listed contract can leave the blacklist exactly when a request under way asks about it. */
  lemma CanLeaveIffAsked(threshold: int, s: System, contract: string)
    requires threshold >= 1 && IsListed(s, threshold, contract)
    ensures CanLeave(threshold, s, contract) <==> Asked(s, contract)
  {
    if Asked(s, contract) {
      var i :| 0 <= i < |s.tasks| && AskedBy(s, i, contract);
      var m := PendingCanTakeOff(threshold, s, i, contract);
      assert [m][..0] == [];
      assert RunMoves(threshold, s, [m]) == Next(threshold, s, m);
    } else {
      forall moves | RunMoves(threshold, s, moves).Some?
        ensures IsListed(RunMoves(threshold, s, moves).value, threshold, contract)
      {
        UnaskedStaysListed(threshold, s, moves, contract);
      }
    }
  }

  /** In particular a contract leaves only by the answer to a request that was already under way. */
  lemma LeavesOnlyByRequestInFlight(threshold: int, s: System, m: Move, contract: string)
    requires threshold >= 1 && Next(threshold, s, m).Some? && IsListed(s, threshold, contract)
    requires !IsListed(Next(threshold, s, m).value, threshold, contract)
    ensures !m.Start? && Resolves(s, m, contract) && Asked(s, contract)
  {
    MoveTakesOffIff(threshold, s, m, contract);
    ResolvesIsAsked(s, m, contract);
  }

  // ----- Requests that do not overlap -----

  /** Nothing under way asks about a blacklisted contract. */
  ghost predicate NoneAsked(s: System, threshold: int) {
    forall i, contract :: IsListed(s, threshold, contract) ==> !AskedBy(s, i, contract)
  }

  /** No request starts while another is under way. */
  predicate Alone(s: System, m: Move) {
    forall i :: 0 <= i < |s.tasks| && i != m.task ==> !Asking(s.tasks[i].phase)
  }

  lemma AloneKeepsNoneAsked(threshold: int, s: System, m: Move)
    requires Next(threshold, s, m).Some? && NoneAsked(s, threshold) && Alone(s, m)
    ensures NoneAsked(Next(threshold, s, m).value, threshold)
  {
    var s' := Next(threshold, s, m).value;
    forall i, contract | IsListed(s', threshold, contract) ensures !AskedBy(s', i, contract) {
      if AskedBy(s', i, contract) {
        assert i == m.task && s'.failures == s.failures;
        NeverAskedAnew(threshold, s, m, contract, i);
      }
    }
  }

  ghost predicate AloneRun(threshold: int, s: System, moves: seq<Move>) {
    moves != [] ==>
      var before := RunMoves(threshold, s, moves[..|moves| - 1]);
      && AloneRun(threshold, s, moves[..|moves| - 1])
      && (before.Some? ==> Alone(before.value, moves[|moves| - 1]))
  }

  lemma {:induction false} AloneRunKeepsNoneAsked(threshold: int, s: System, moves: seq<Move>)
    requires NoneAsked(s, threshold) && AloneRun(threshold, s, moves) && RunMoves(threshold, s, moves).Some?
    ensures NoneAsked(RunMoves(threshold, s, moves).value, threshold)
  {
    if moves != [] {
      var init := moves[..|moves| - 1];
      AloneRunKeepsNoneAsked(threshold, s, init);
      AloneKeepsNoneAsked(threshold, RunMoves(threshold, s, init).value, moves[|moves| - 1]);
    }
  }

  /** What requests that did not overlap have put on the blacklist stays there, whatever comes after. */
  lemma ListedStaysWithoutOverlap(threshold: int, s: System, moves: seq<Move>, after: seq<Move>, contract: string)
    requires threshold >= 1 && NoneAsked(s, threshold) && AloneRun(threshold, s, moves)
    requires RunMoves(threshold, s, moves).Some? && IsListed(RunMoves(threshold, s, moves).value, threshold, contract)
    requires RunMoves(threshold, RunMoves(threshold, s, moves).value, after).Some?
    ensures IsListed(RunMoves(threshold, RunMoves(threshold, s, moves).value, after).value, threshold, contract)
  {
    AloneRunKeepsNoneAsked(threshold, s, moves);
    UnaskedStaysListed(threshold, RunMoves(threshold, s, moves).value, after, contract);
  }
}

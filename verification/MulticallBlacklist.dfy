/** Contracts whose balances are no longer asked for, erc20/lib/multicall_blacklist.ts. */
module MulticallBlacklists {
  type Failures = map<string, nat>

  function FailuresOf(failures: Failures, contract: string): nat {
    if contract in failures then failures[contract] else 0
  }

  function WithAllFailed(failures: Failures, contract: string): Failures {
    failures[contract := FailuresOf(failures, contract) + 1]
  }

  function WithClean(failures: Failures, contract: string): Failures {
    failures - {contract}
  }

  predicate Blacklisted(failures: Failures, threshold: int, contract: string) {
    FailuresOf(failures, contract) >= threshold
  }

  class MulticallBlacklist {
    const failureThreshold: int
    var consecutiveFailures: Failures

    constructor (failureThreshold: int)
      ensures this.failureThreshold == failureThreshold && consecutiveFailures == map[]
    {
      this.failureThreshold, this.consecutiveFailures := failureThreshold, map[];
    }

    method RecordAllFailed(contract: string)
      modifies this
      ensures consecutiveFailures == WithAllFailed(old(consecutiveFailures), contract)
    {
      var failures := (if contract in consecutiveFailures then consecutiveFailures[contract] else 0) + 1;
      consecutiveFailures := consecutiveFailures[contract := failures];
    }

    method RecordCleanResult(contract: string)
      modifies this
      ensures consecutiveFailures == WithClean(old(consecutiveFailures), contract)
    {
      consecutiveFailures := consecutiveFailures - {contract};
    }

    method IsBlacklisted(contract: string) returns (r: bool)
      ensures r <==> Blacklisted(consecutiveFailures, failureThreshold, contract)
    {
      r := (if contract in consecutiveFailures then consecutiveFailures[contract] else 0) >= failureThreshold;
    }
  }

  /** What was recorded: that every address of a contract failed, or that one resolved. */
  datatype Signal = AllFailed(contract: string) | Clean(contract: string)

  function Record(failures: Failures, s: Signal): Failures {
    if s.AllFailed? then WithAllFailed(failures, s.contract) else WithClean(failures, s.contract)
  }

  function RecordAll(failures: Failures, signals: seq<Signal>): Failures {
    if signals == [] then failures
    else Record(RecordAll(failures, signals[..|signals| - 1]), signals[|signals| - 1])
  }

  /** The outcomes recorded for one contract, in order: true for a failure. */
  function Outcomes(signals: seq<Signal>, contract: string): seq<bool> {
    if signals == [] then []
    else
      var last := signals[|signals| - 1];
      Outcomes(signals[..|signals| - 1], contract)
        + if last.contract == contract then [last.AllFailed?] else []
  }

  ghost predicate LastAllFailed(outcomes: seq<bool>, n: nat) {
    n <= |outcomes| && forall i :: |outcomes| - n <= i < |outcomes| ==> outcomes[i]
  }

  lemma LastAllFailedSnoc(outcomes: seq<bool>, failed: bool, n: nat)
    requires n > 0
    ensures LastAllFailed(outcomes + [failed], n) <==> failed && LastAllFailed(outcomes, n - 1)
  {
    var after := outcomes + [failed];
    assert after[|outcomes|] == failed;
    if LastAllFailed(after, n) {
      forall i | |outcomes| - (n - 1) <= i < |outcomes| ensures outcomes[i] {
        assert after[i];
      }
    }
  }

  /** The count is that of the failures since the last clean result, and contracts do not mix. */
  lemma {:induction false} CountIsTrailingFailures(signals: seq<Signal>, contract: string, n: nat)
    ensures FailuresOf(RecordAll(map[], signals), contract) >= n <==> LastAllFailed(Outcomes(signals, contract), n)
    decreases |signals|
  {
    if signals != [] {
      var init, last := signals[..|signals| - 1], signals[|signals| - 1];
      CountIsTrailingFailures(init, contract, n);
      assert Outcomes(init, contract) + [] == Outcomes(init, contract);
      if last.contract == contract && n > 0 {
        CountIsTrailingFailures(init, contract, n - 1);
        LastAllFailedSnoc(Outcomes(init, contract), last.AllFailed?, n);
      }
    }
  }

  /** A contract is skipped exactly when its last `threshold` recorded outcomes are all failures. */
  lemma BlacklistedIff(signals: seq<Signal>, threshold: nat, contract: string)
    ensures Blacklisted(RecordAll(map[], signals), threshold, contract)
       <==> LastAllFailed(Outcomes(signals, contract), threshold)
  {
    CountIsTrailingFailures(signals, contract, threshold);
  }
}

/** The balances of the transfers that a work call of the ERC20 worker fetched: one or two lists, enriched at once. */
module Balancing {
  import opened Common
  import opened FetchEvents
  import opened MulticallBlacklists
  import U = BalanceUtils
  import A = AddBalances
  import N = Enrichment

  /** How balances are asked for. */
  datatype Balancer = Balancer(checksum: string -> bool, batchSize: int, concurrency: int, threshold: int)

  predicate ValidBalancer(b: Balancer) {
    b.batchSize >= 1 && b.concurrency >= 1
  }

  const NO_SIDES := U.Sides(None, None)

  /** The balances of a transfer, where they are not asked for, and where a map has them. */
  type Fill = Transfer -> U.Sides

  function Blank(t: Transfer): U.Sides {
    NO_SIDES
  }

  function MovementOf(t: Transfer): U.Movement {
    U.Movement(t.sender, t.receiver, t.contract, t.blockNumber)
  }

  function MovementsOf(transfers: seq<Transfer>): seq<U.Movement> {
    MapSeq(transfers, MovementOf)
  }

  function ChunksFor(b: Balancer, transfers: seq<Transfer>): seq<seq<U.Batch>>
    requires ValidBalancer(b)
  {
    N.TaskChunks(b.checksum, MovementsOf(transfers), b.batchSize, b.concurrency)
  }

  /** The tasks of both lists, before the first request. */
  function Started(b: Balancer, olds: seq<Transfer>, others: seq<Transfer>, failures: Option<Failures>): A.System
    requires ValidBalancer(b)
  {
    A.InitialSystem(ChunksFor(b, olds) + ChunksFor(b, others), failures)
  }

  /** Where a schedule of requests and answers leads. */
  function Final(b: Balancer, olds: seq<Transfer>, others: seq<Transfer>, failures: Option<Failures>,
                 moves: seq<A.Move>)
    : Option<A.System>
    requires ValidBalancer(b)
  {
    A.RunMoves(b.threshold, Started(b, olds, others, failures), moves)
  }

  /** The schedule goes on until all tasks are done, or at least until one threw. */
  predicate Ends(b: Balancer, olds: seq<Transfer>, others: seq<Transfer>, failures: Option<Failures>,
                 moves: seq<A.Move>)
    requires ValidBalancer(b)
  {
    var final := Final(b, olds, others, failures, moves);
    final.Some? && (A.Finished(final.value) || A.SomeThrew(final.value))
  }

  function FillFrom(b: Balancer, part: A.System): Fill {
    var m := N.MapOf(N.ResultsOf(part));
    (t: Transfer) => N.Filled(b.checksum, m, MovementOf(t), NO_SIDES)
  }

  lemma {:induction false} TasksStay(threshold: int, s: A.System, moves: seq<A.Move>)
    requires A.RunMoves(threshold, s, moves).Some?
    ensures |A.RunMoves(threshold, s, moves).value.tasks| == |s.tasks|
  {
    if moves != [] {
      TasksStay(threshold, s, moves[..|moves| - 1]);
    }
  }

  /** The balances of each list, unless a task threw. */
  function Fills(b: Balancer, olds: seq<Transfer>, others: seq<Transfer>, failures: Option<Failures>,
                 moves: seq<A.Move>)
    : Result<(Fill, Fill)>
    requires ValidBalancer(b) && Ends(b, olds, others, failures, moves)
  {
    var final := Final(b, olds, others, failures, moves).value;
    if A.SomeThrew(final) then Err("multicall")
    else
      TasksStay(b.threshold, Started(b, olds, others, failures), moves);
      var n, m := |ChunksFor(b, olds)|, |ChunksFor(b, others)|;
      Ok((FillFrom(b, N.Part(final, 0, n)), FillFrom(b, N.Part(final, n, m))))
  }

  /** A fill gives each eligible party of the transfers the chain's balance or a failure, and the others none. */
  ghost predicate FillsRightly(chain: A.Chain, b: Balancer, transfers: seq<Transfer>, fill: Fill) {
    forall t :: t in transfers ==> N.SidesOk(chain, b.checksum, MovementOf(t), NO_SIDES, fill(t))
  }

  lemma PartFillsRightly(chain: A.Chain, b: Balancer, transfers: seq<Transfer>, part: A.System)
    requires N.AllResolved(chain, b.checksum, MovementsOf(transfers), part)
    ensures FillsRightly(chain, b, transfers, FillFrom(b, part))
  {
    forall t | t in transfers ensures N.SidesOk(chain, b.checksum, MovementOf(t), NO_SIDES, FillFrom(b, part)(t)) {
      var i :| 0 <= i < |transfers| && transfers[i] == t;
      assert MovementsOf(transfers)[i] == MovementOf(t);
      N.FilledRightly(chain, b.checksum, MovementsOf(transfers), N.MapOf(N.ResultsOf(part)), MovementOf(t), NO_SIDES);
    }
  }

  /** Whatever the schedule, when no task threw both lists are filled rightly, though they share one blacklist. */
  lemma BothFilledRightly(chain: A.Chain, b: Balancer, olds: seq<Transfer>, others: seq<Transfer>,
                          failures: Option<Failures>, moves: seq<A.Move>)
    requires ValidBalancer(b) && Ends(b, olds, others, failures, moves)
    requires A.HonestRun(chain, b.threshold, Started(b, olds, others, failures), moves)
    requires Fills(b, olds, others, failures, moves).Ok?
    ensures var (fillOlds, fillOthers) := Fills(b, olds, others, failures, moves).value;
            FillsRightly(chain, b, olds, fillOlds) && FillsRightly(chain, b, others, fillOthers)
  {
    var final := Final(b, olds, others, failures, moves).value;
    var x, y := ChunksFor(b, olds), ChunksFor(b, others);
    N.BothListsResolved(chain, b.checksum, MovementsOf(olds), MovementsOf(others), b.batchSize, b.concurrency, x, y,
                        failures, b.threshold, moves, final);
    PartFillsRightly(chain, b, olds, N.Part(final, 0, |x|));
    PartFillsRightly(chain, b, others, N.Part(final, |x|, |y|));
  }

  lemma NoChunks(b: Balancer)
    requires ValidBalancer(b)
    ensures ChunksFor(b, []) == []
  {
    assert MovementsOf([]) == [];
    assert U.BlocksOf([], 0) == [];
  }

  /** With nothing to balance no task can throw. */
  lemma NothingToBalance(b: Balancer, failures: Option<Failures>, moves: seq<A.Move>)
    requires ValidBalancer(b) && Ends(b, [], [], failures, moves)
    ensures Fills(b, [], [], failures, moves).Ok?
  {
    NoChunks(b);
    TasksStay(b.threshold, Started(b, [], [], failures), moves);
  }
}

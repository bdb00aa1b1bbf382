/**
 * Who gets a balance, told from addresses alone: isAddressEligableForBalance of erc20/lib/balance_utils.ts, seen in
 * the requests to the node, in the enriched transfers, and in the exported records.
 */
module BalanceSides {
  import opened Common
  import opened Chunks
  import opened FetchEvents
  import opened ContractOverwrites
  import opened EventBatches
  import opened MulticallBlacklists
  import opened Balancing
  import opened Erc20Workers
  import opened Erc20Balances
  import U = BalanceUtils
  import A = AddBalances
  import N = Enrichment

  // ----- Holders -----

  /** Forty hexadecimal digits, in either case, after 0x, 0X or nothing. */
  ghost predicate Forty(address: string) {
    exists prefix, digits ::
      && address == prefix + digits && prefix in {"", "0x", "0X"} && |digits| == 40
      && forall i :: 0 <= i < 40 ==> digits[i] in "0123456789abcdefABCDEF"
  }

  predicate IsZero(address: string) {
    address == "0x" + seq(40, i => '0')
  }

  /** An address that can hold a token: not the zero address, nor the token's own contract. */
  ghost predicate CanHold(checksum: string -> bool, address: string, contract: string) {
    Forty(address) && checksum(address) && !IsZero(address) && address != contract
  }

  lemma ZeroAddress()
    ensures IsZero(U.ZERO_ADDRESS) && IsZero(FetchEvents.ZERO_ADDRESS)
  {
  }

  lemma HexDigits(c: char)
    ensures U.HexDigit(c) <==> c in "0123456789abcdefABCDEF"
  {
  }

  lemma FortyIsHexShape(address: string)
    ensures U.HexShape(address) <==> Forty(address)
  {
    forall c ensures U.HexDigit(c) <==> c in "0123456789abcdefABCDEF" { HexDigits(c); }
    if U.HexShape(address) {
      var n, digits := |address| - 40, U.WithoutPrefix(address);
      assert address == address[..n] + digits && (n == 2 ==> address[..n] == [address[0], address[1]]);
      forall i | 0 <= i < 40 ensures digits[i] in "0123456789abcdefABCDEF" {
        assert U.HexDigit(digits[i]);
      }
    }
    if prefix, digits :| address == prefix + digits && prefix in {"", "0x", "0X"} && |digits| == 40
                         && forall i :: 0 <= i < 40 ==> digits[i] in "0123456789abcdefABCDEF" {
      PrefixedIsHexShape(prefix, digits);
    }
  }

  lemma PrefixedIsHexShape(prefix: string, digits: string)
    requires prefix in {"", "0x", "0X"} && |digits| == 40 && forall i :: 0 <= i < 40 ==> U.HexDigit(digits[i])
    ensures U.HexShape(prefix + digits)
  {
    if prefix == "" {
      assert prefix + digits == digits && U.HexDigit(digits[1]);
    } else {
      assert (prefix + digits)[2..] == digits;
    }
  }

  lemma EligibleIff(checksum: string -> bool, address: string, contract: string)
    ensures U.Eligible(checksum, address, contract) <==> CanHold(checksum, address, contract)
  {
    FortyIsHexShape(address);
    ZeroAddress();
  }

  /** The names of mints, burns and freezes, and the zero address, hold nothing. */
  lemma NamesHoldNothing(checksum: string -> bool, contract: string)
    ensures !CanHold(checksum, MINT_ADDRESS, contract) && !CanHold(checksum, BURN_ADDRESS, contract)
    ensures !CanHold(checksum, FREEZE_ADDRESS, contract) && !CanHold(checksum, FetchEvents.ZERO_ADDRESS, contract)
    ensures !CanHold(checksum, contract, contract)
  {
    ZeroAddress();
  }

  // ----- Requests -----

  /** A transfer of the block moves the pair's token from or to the pair's address, and it can hold the token. */
  ghost predicate Moves(checksum: string -> bool, e: U.Movement, block: int, p: U.Pair) {
    && e.blockNumber == block && e.contract == p.contract && (e.sender == p.address || e.receiver == p.address)
    && CanHold(checksum, p.address, p.contract)
  }

  lemma PairOfEvent(checksum: string -> bool, e: U.Movement, p: U.Pair)
    ensures p in U.EventPairs(checksum, e) <==> Moves(checksum, e, e.blockNumber, p)
  {
    EligibleIff(checksum, p.address, p.contract);
  }

  /** A balance is requested once if a transfer of the block moves it, and not otherwise. */
  lemma RequestedIff(checksum: string -> bool, events: seq<U.Movement>, size: int, block: int, p: U.Pair)
    requires size >= 1
    ensures U.Requested(U.BatchesOf(checksum, events, U.BlocksOf(events, |events|), size), block, p) ==
            if exists i :: 0 <= i < |events| && Moves(checksum, events[i], block, p) then 1 else 0
  {
    U.RequestedOnce(checksum, events, size, block, p);
    forall i | 0 <= i < |events|
      ensures Moves(checksum, events[i], block, p)
              <==> events[i].blockNumber == block && p in U.EventPairs(checksum, events[i])
    {
      PairOfEvent(checksum, events[i], p);
    }
  }

  ghost predicate BatchesWithin(batches: seq<U.Batch>, size: int) {
    forall i :: 0 <= i < |batches| ==> 1 <= |batches[i].pairs| <= size
  }

  lemma {:induction false} LabelledWithin(input: seq<U.Pair>, size: int, block: int)
    requires size >= 1
    ensures BatchesWithin(U.Labelled(block, Slices(input, size)), size)
    decreases |input|
  {
    if |input| > size {
      LabelledWithin(input[size..], size, block);
      assert Slices(input, size)[1..] == Slices(input[size..], size);
    } else if |input| > 0 {
      assert Slices(input, size)[1..] == [];
    }
  }

  lemma {:induction false} BlocksWithin(checksum: string -> bool, events: seq<U.Movement>, blocks: seq<int>, size: int)
    requires size >= 1
    ensures BatchesWithin(U.BatchesOf(checksum, events, blocks, size), size)
  {
    if blocks != [] {
      var last := blocks[|blocks| - 1];
      BlocksWithin(checksum, events, blocks[..|blocks| - 1], size);
      LabelledWithin(U.PairsAt(checksum, events, |events|, last), size, last);
    }
  }

  lemma PartWithin(batches: seq<U.Batch>, size: int, first: int, last: int)
    requires BatchesWithin(batches, size) && 0 <= first <= last <= |batches|
    ensures BatchesWithin(batches[first..last], size)
  {
  }

  lemma ChunksWithin(batches: seq<U.Batch>, size: int, concurrency: int)
    requires concurrency >= 1 && BatchesWithin(batches, size)
    ensures var chunks := N.ChunksOf(batches, concurrency);
            |chunks| <= concurrency && forall i :: 0 <= i < |chunks| ==> BatchesWithin(chunks[i], size)
  {
    if batches != [] {
      var chunkSize := N.ChunkSize(batches, concurrency);
      AtMostConcurrencyChunks(0, |batches| - 1, concurrency);
      ChunksPartition(0, |batches| - 1, chunkSize);
      var cs := InclusiveChunks(0, |batches| - 1, chunkSize);
      var chunks := N.ChunkUp(batches, cs);
      forall i | 0 <= i < |chunks| ensures BatchesWithin(chunks[i], size) {
        PartWithin(batches, size, cs[i].0, cs[i].1 + 1);
      }
    }
  }

  /**
   * A work call asks for balances in at most MAX_CONNECTION_CONCURRENCY tasks for each list of transfers, and in
   * batches that are not empty and hold at most MULTICALL_BATCH_SIZE pairs.
   */
  lemma TasksOfCall(s: Settings, transfers: seq<Transfer>)
    requires ValidSettings(s)
    ensures var chunks := ChunksFor(BalancerOf(s), transfers);
            && |chunks| <= s.concurrency
            && forall i :: 0 <= i < |chunks| ==> BatchesWithin(chunks[i], s.multicallBatchSize)
  {
    var movements := MovementsOf(transfers);
    BlocksWithin(s.checksum, movements, U.BlocksOf(movements, |movements|), s.multicallBatchSize);
    ChunksWithin(U.BatchesOf(s.checksum, movements, U.BlocksOf(movements, |movements|), s.multicallBatchSize),
                 s.multicallBatchSize, s.concurrency);
  }

  // ----- What is written -----

  /** The balance that the chain gives, or the mark of a failed request. */
  predicate Told(chain: A.Chain, block: int, address: string, contract: string, balance: U.Balance) {
    match balance
    case MulticallFailure => true
    case Amount(value) => chain(block, U.Pair(address, contract)) == Some(value)
  }

  /** One side of a transfer after the enrichment. */
  ghost predicate SideAfter(chain: A.Chain, checksum: string -> bool, e: U.Movement, address: string,
                            before: Option<U.Balance>, after: Option<U.Balance>) {
    && (CanHold(checksum, address, e.contract) ==>
          after.Some? && Told(chain, e.blockNumber, address, e.contract, after.value))
    && (!CanHold(checksum, address, e.contract) ==> after == before)
  }

  /**
   * Both sides of an enriched transfer: a side that can hold the token gets the balance of its own address, and
   * one that cannot (a name, the zero address, the contract) stays as it was.
   */
  lemma SidesAfter(chain: A.Chain, checksum: string -> bool, e: U.Movement, before: U.Sides, after: U.Sides)
    ensures N.SidesOk(chain, checksum, e, before, after) <==>
            && SideAfter(chain, checksum, e, e.sender, before.sender, after.sender)
            && SideAfter(chain, checksum, e, e.receiver, before.receiver, after.receiver)
  {
    EligibleIff(checksum, e.sender, e.contract);
    EligibleIff(checksum, e.receiver, e.contract);
  }

  // ----- What is exported -----

  /** The record is that of a fetched transfer, and its sides are those of the transfer's parties. */
  ghost predicate RecordTells(chain: A.Chain, s: Settings, lists: (seq<Transfer>, seq<Transfer>), x: Event) {
    exists t :: (t in lists.0 || t in lists.1)
                && x.transfer.sender == t.sender && x.transfer.receiver == t.receiver
                && x.transfer.blockNumber == t.blockNumber
                && SideAfter(chain, s.checksum, MovementOf(t), t.sender, None, x.sides.sender)
                && SideAfter(chain, s.checksum, MovementOf(t), t.receiver, None, x.sides.receiver)
  }

  /** Balances are asked for when the settings say so and the interval starts after the multicall contract's block. */
  predicate WantsBalances(s: Settings, lo: int) {
    s.extendTransfersWithBalances && s.multicallDeployBlock < lo
  }

  /**
   * So each record of a work call that asks for balances has those of its parties that can hold the transferred
   * token, and no other.
   */
  lemma RecordSides(chain: A.Chain, s: Settings, node: Node, interval: Chunk, failures: Option<Failures>,
                    moves: seq<A.Move>, records: seq<Event>, keyBefore: int, keyAfter: int, x: Event)
    requires ValidSettings(s) && Scheduled(s, node, Some(interval), failures, moves)
    requires Exports(s, node, interval, failures, moves, records, keyBefore, keyAfter) && x in records
    requires WantsBalances(s, interval.0)
    requires var lists := Lists(s, node, interval.0, interval.1).value;
             A.HonestRun(chain, s.failureThreshold, Started(BalancerOf(s), lists.0, lists.1, failures), moves)
    ensures RecordTells(chain, s, Lists(s, node, interval.0, interval.1).value, x)
  {
    var lists := Lists(s, node, interval.0, interval.1).value;
    RecordsCarryBalances(chain, s, node, interval, failures, moves, records, keyBefore, keyAfter, x);
    var t :| (t in lists.0 || t in lists.1) && MovementOf(x.transfer) == MovementOf(t).(contract := x.transfer.contract)
             && N.SidesOk(chain, s.checksum, MovementOf(t), NO_SIDES, x.sides);
    SidesAfter(chain, s.checksum, MovementOf(t), NO_SIDES, x.sides);
  }

  lemma BlankSides(s: Settings, lists: (seq<Transfer>, seq<Transfer>), x: Event)
    requires ValidSettings(s) && x in ExportBatch(EventsOf(s, lists, (Blank, Blank)), Appended(s), s.rescale)
    ensures x.sides == NO_SIDES
  {
    var e := RecordMade(s, EventsOf(s, lists, (Blank, Blank)), x);
    EventFilled(s, lists, (Blank, Blank), e);
  }

  /** And no record of another call has any. */
  lemma NoSidesUnasked(s: Settings, node: Node, interval: Chunk, failures: Option<Failures>, moves: seq<A.Move>,
                       records: seq<Event>, keyBefore: int, keyAfter: int, x: Event)
    requires ValidSettings(s) && Scheduled(s, node, Some(interval), failures, moves)
    requires Exports(s, node, interval, failures, moves, records, keyBefore, keyAfter) && x in records
    requires !WantsBalances(s, interval.0)
    ensures x.sides.sender.None? && x.sides.receiver.None?
  {
    BlankSides(s, Lists(s, node, interval.0, interval.1).value, x);
  }
}

/** Reading the logs of a block range from the node: getRawEvents and decodeEvents of erc20/lib/fetch_events.ts. */
module FetchEvents {
  import opened Common

  /** A transaction hash as a number; 0 stands for a hash that is absent or empty. */
  type Hash = nat

  datatype RawEvent = RawEvent(
    address: string, topics: Option<seq<string>>, data: nat, blockNumber: int,
    transactionHash: Hash, logIndex: int, transactionIndex: int)

  datatype Transfer = Transfer(
    sender: string, receiver: string, amount: nat, contract: string, blockNumber: int,
    transactionHash: Hash, logIndex: int, transactionIndex: int)

  /** How the node treats a query. */
  datatype Verdict = Answers | TooManyLogs | Fails(error: string)

  /**
   * The node: the logs of each block, how it treats log queries and receipt queries, and the numbers of the blocks
   * it returns when asked for the blocks of an interval, None where that fails or cannot be read.
   */
  datatype Node = Node(logs: int -> seq<RawEvent>, verdict: (int, int) -> Verdict, receipts: int -> Option<string>,
                       blocks: (int, int) -> Option<seq<int>>)

  type ContractFilter = Option<seq<string>>

  function LowerChar(c: char): char {
    if 'A' <= c <= 'Z' then (c as int + 32) as char else c
  }

  function Lower(s: string): string {
    seq(|s|, i requires 0 <= i < |s| => LowerChar(s[i]))
  }

  predicate Wanted(filter: ContractFilter, log: RawEvent) {
    filter.Some? ==> exists i :: 0 <= i < |filter.value| && Lower(filter.value[i]) == Lower(log.address)
  }

  function Wants(filter: ContractFilter): RawEvent -> bool {
    log => Wanted(filter, log)
  }

  /** The wanted logs of each block of the range, in order of blocks. */
  function BlockLogs(node: Node, filter: ContractFilter, lo: int, hi: int): seq<RawEvent>
    decreases hi - lo
  {
    if lo > hi then [] else Filter(node.logs(lo), Wants(filter)) + BlockLogs(node, filter, lo + 1, hi)
  }

  /** The outcome of a fetch and the number of log queries it took. */
  datatype Fetched = Fetched(result: Result<seq<RawEvent>>, queries: nat)

  function RawEventsFromReceipts(node: Node, filter: ContractFilter, block: int): Result<seq<RawEvent>> {
    match node.receipts(block)
    case Some(error) => Err(error)
    case None => Ok(Filter(node.logs(block), Wants(filter)))
  }

  function GetRawEvents(node: Node, filter: ContractFilter, lo: int, hi: int): Fetched
    requires lo <= hi
    decreases hi - lo
  {
    match node.verdict(lo, hi)
    case Answers => Fetched(Ok(BlockLogs(node, filter, lo, hi)), 1)
    case Fails(error) => Fetched(Err(error), 1)
    case TooManyLogs =>
      if lo == hi then Fetched(RawEventsFromReceipts(node, filter, lo), 1)
      else
        var middle := (lo + hi) / 2;
        var first := GetRawEvents(node, filter, lo, middle);
        if first.result.Err? then Fetched(first.result, 1 + first.queries)
        else
          var second := GetRawEvents(node, filter, middle + 1, hi);
          Fetched(if second.result.Err? then second.result else Ok(first.result.value + second.result.value),
                  1 + first.queries + second.queries)
  }

  lemma {:induction false} BlockLogsSplit(node: Node, filter: ContractFilter, lo: int, mid: int, hi: int)
    requires lo <= mid + 1 && mid <= hi
    ensures BlockLogs(node, filter, lo, hi) == BlockLogs(node, filter, lo, mid) + BlockLogs(node, filter, mid + 1, hi)
    decreases mid - lo
  {
    if lo <= mid {
      BlockLogsSplit(node, filter, lo + 1, mid, hi);
      AppendAssoc(Filter(node.logs(lo), Wants(filter)), BlockLogs(node, filter, lo + 1, mid),
                  BlockLogs(node, filter, mid + 1, hi));
    } else {
      assert BlockLogs(node, filter, lo, mid) == [];
    }
  }

  /**
   * Whatever the node rejects as too big, a fetch that ends well returns the logs of the blocks, each once and in
   * order.
   */
  lemma {:induction false} BisectionIsExact(node: Node, filter: ContractFilter, lo: int, hi: int)
    requires lo <= hi
    ensures var f := GetRawEvents(node, filter, lo, hi);
            f.result.Ok? ==> f.result.value == BlockLogs(node, filter, lo, hi)
    decreases hi - lo
  {
    if node.verdict(lo, hi).TooManyLogs? {
      if lo == hi {
        assert BlockLogs(node, filter, lo + 1, hi) == [];
        assert BlockLogs(node, filter, lo, hi) == Filter(node.logs(lo), Wants(filter)) + [];
      } else {
        var middle := (lo + hi) / 2;
        BisectionIsExact(node, filter, lo, middle);
        BisectionIsExact(node, filter, middle + 1, hi);
        BlockLogsSplit(node, filter, lo, middle, hi);
      }
    }
  }

  /** n blocks take at most 2n - 1 log queries. */
  lemma {:induction false} BisectionIsCheap(node: Node, filter: ContractFilter, lo: int, hi: int)
    requires lo <= hi
    ensures 1 <= GetRawEvents(node, filter, lo, hi).queries <= 2 * (hi - lo + 1) - 1
    decreases hi - lo
  {
    if node.verdict(lo, hi).TooManyLogs? && lo < hi {
      var middle := (lo + hi) / 2;
      BisectionIsCheap(node, filter, lo, middle);
      BisectionIsCheap(node, filter, middle + 1, hi);
    }
  }

  /**
   * Halving is quick when only big ranges are too big: if ranges of at most m blocks are not, n blocks take fewer than
   * 4n / m queries, from n = m / 2 on.
   */
  lemma {:induction false} BisectionAdapts(node: Node, filter: ContractFilter, lo: int, hi: int, m: nat)
    requires lo <= hi && 1 <= m <= 2 * (hi - lo + 1)
    requires forall a, b :: b - a < m ==> !node.verdict(a, b).TooManyLogs?
    ensures (GetRawEvents(node, filter, lo, hi).queries + 1) * m <= 4 * (hi - lo + 1)
    decreases hi - lo
  {
    if node.verdict(lo, hi).TooManyLogs? && lo < hi {
      var middle := (lo + hi) / 2;
      BisectionAdapts(node, filter, lo, middle, m);
      BisectionAdapts(node, filter, middle + 1, hi, m);
      var q, r := GetRawEvents(node, filter, lo, middle).queries, GetRawEvents(node, filter, middle + 1, hi).queries;
      assert (q + 1 + (r + 1)) * m == (q + 1) * m + (r + 1) * m;
      assert (q + 2) * m <= (q + 1 + (r + 1)) * m;
    }
  }

  /** The node fails with this error somewhere in the range, other than by finding a query too big. */
  ghost predicate FailsWithin(node: Node, lo: int, hi: int, error: string) {
    || (exists a, b :: lo <= a <= b <= hi && node.verdict(a, b) == Fails(error))
    || (exists a :: lo <= a <= hi && node.receipts(a) == Some(error))
  }

  /** A rejection as too big never surfaces: the fetch fails only with an error of another kind that the node gave. */
  lemma {:induction false} BisectionFailsOnlyWithTheNode(node: Node, filter: ContractFilter, lo: int, hi: int)
    requires lo <= hi
    ensures var f := GetRawEvents(node, filter, lo, hi);
            f.result.Err? ==> FailsWithin(node, lo, hi, f.result.error)
    decreases hi - lo
  {
    if node.verdict(lo, hi).TooManyLogs? && lo < hi {
      var middle := (lo + hi) / 2;
      BisectionFailsOnlyWithTheNode(node, filter, lo, middle);
      BisectionFailsOnlyWithTheNode(node, filter, middle + 1, hi);
    }
  }

  /** A node that rejects every query but never fails costs exactly 2n - 1 queries. */
  lemma {:induction false} RejectingNodeCostsMost(node: Node, filter: ContractFilter, lo: int, hi: int)
    requires lo <= hi
    requires forall a, b :: node.verdict(a, b).TooManyLogs?
    requires forall a :: node.receipts(a).None?
    ensures var f := GetRawEvents(node, filter, lo, hi);
            f.result.Ok? && f.queries == 2 * (hi - lo + 1) - 1
    decreases hi - lo
  {
    if lo < hi {
      var middle := (lo + hi) / 2;
      RejectingNodeCostsMost(node, filter, lo, middle);
      RejectingNodeCostsMost(node, filter, middle + 1, hi);
    }
  }

  // ----- Decoding -----

  const ZERO_ADDRESS := "0x0000000000000000000000000000000000000000"
  const MINT_ADDRESS := "mint"
  const BURN_ADDRESS := "burn"
  const FREEZE_ADDRESS := "freeze"
  const BNB_CONTRACT := "0xb8c77482e45f1f44de1745f52c74426c631bdd52"
  const QNT_CONTRACT := "0x4a220e6096b25eadb88358cb44068a3248254675"
  const WETH_CONTRACT := "0xc02aaa39b223fe8d0a0e5c4f27ead9083c756cc2"

  const TRANSFER_TOPIC := "0xddf252ad1be2c89b69c2b068fc378daa952ba7f163c4a11628f55a4df523b3ef"
  const BURN_TOPIC := "0xcc16f5dbb4873280815c1ee09dbd06736cffcc184412cf7a71a0fdb75d397ca5"
  const MINT_TOPIC := "0x0f6798a560793a54c3bcfe86a93cde1e73087d944c0ea20544137d4121396885"
  const FREEZE_TOPIC := "0xf97a274face0b5517365ad396b1fdba6f68bd3135ef603e44272adba3af5a1e0"
  const UNFREEZE_TOPIC := "0x2cfce4af01bcb9d6cf6c84ee1b7c491100b8695368264146a94d71e10a63083f"
  const CREATE_BAT_TOPIC := "0xb33527d2e0d30b7aece2c5e82927985866c1b75173d671c14f4457bf67aa6910"
  const DEPOSIT_TOPIC := "0xe1fffcc4923d04b559f4d29a8bfc6cda04eb5b0d3c460751c2402c5c5cc9109c"
  const WITHDRAWAL_TOPIC := "0x7fcf532c15f0a6db0bd6d0e038bea71d30d808c7d98cb3bf7268a95bf5081b65"

  function DecodeAddress(topic: string): string {
    "0x" + topic[if |topic| >= 40 then |topic| - 40 else 0..]
  }

  function Decoded(e: RawEvent, sender: string, receiver: string): Option<Transfer> {
    Some(Transfer(sender, receiver, e.data, Lower(e.address), e.blockNumber, e.transactionHash, e.logIndex,
                  e.transactionIndex))
  }

  function DecodeTransfer(e: RawEvent, topics: seq<string>): Option<Transfer> {
    if |topics| != 3 then None
    else
      var receiver := DecodeAddress(topics[2]);
      Decoded(e, DecodeAddress(topics[1]),
              if Lower(receiver) == QNT_CONTRACT && Lower(e.address) == QNT_CONTRACT then BURN_ADDRESS else receiver)
  }

  /** The events with one indexed address, from which or to which the amount moves; some belong to one contract only. */
  function DecodeOneSided(e: RawEvent, topics: seq<string>, contract: Option<string>, from: Option<string>,
                          receiver: Option<string>): Option<Transfer> {
    if |topics| != 2 || (contract.Some? && Lower(e.address) != contract.value) then None
    else
      var address := DecodeAddress(topics[1]);
      Decoded(e, if from.Some? then from.value else address, if receiver.Some? then receiver.value else address)
  }

  datatype Kind = TransferEvent | BurnEvent | MintEvent | FreezeEvent | UnfreezeEvent | DepositEvent | WithdrawalEvent

  /** The kind of event a topic stands for; CreateBAT counts as a mint. */
  function KindOf(topic: string): Option<Kind> {
    if topic == TRANSFER_TOPIC then Some(TransferEvent)
    else if topic == BURN_TOPIC then Some(BurnEvent)
    else if topic == MINT_TOPIC || topic == CREATE_BAT_TOPIC then Some(MintEvent)
    else if topic == FREEZE_TOPIC then Some(FreezeEvent)
    else if topic == UNFREEZE_TOPIC then Some(UnfreezeEvent)
    else if topic == DEPOSIT_TOPIC then Some(DepositEvent)
    else if topic == WITHDRAWAL_TOPIC then Some(WithdrawalEvent)
    else None
  }

  function KindOfEvent(e: RawEvent): Option<Kind> {
    if e.topics.None? || |e.topics.value| == 0 then None else KindOf(e.topics.value[0])
  }

  function DecodeEvent(e: RawEvent): Option<Transfer> {
    match KindOfEvent(e)
    case None => None
    case Some(kind) =>
      var t := e.topics.value;
      match kind
      case TransferEvent => DecodeTransfer(e, t)
      case BurnEvent => DecodeOneSided(e, t, None, None, Some(BURN_ADDRESS))
      case MintEvent => DecodeOneSided(e, t, None, Some(MINT_ADDRESS), None)
      case FreezeEvent => DecodeOneSided(e, t, Some(BNB_CONTRACT), None, Some(FREEZE_ADDRESS))
      case UnfreezeEvent => DecodeOneSided(e, t, Some(BNB_CONTRACT), Some(FREEZE_ADDRESS), None)
      case DepositEvent => DecodeOneSided(e, t, Some(WETH_CONTRACT), Some(MINT_ADDRESS), None)
      case WithdrawalEvent => DecodeOneSided(e, t, Some(WETH_CONTRACT), None, Some(BURN_ADDRESS))
  }

  function DecodedOne(e: RawEvent): seq<Transfer> {
    match DecodeEvent(e) case Some(t) => [t] case None => []
  }

  function DecodedAll(events: seq<RawEvent>): seq<Transfer> {
    Flatten(MapSeq(events, DecodedOne))
  }

  lemma DecodedAppend(a: seq<RawEvent>, b: seq<RawEvent>)
    ensures DecodedAll(a + b) == DecodedAll(a) + DecodedAll(b)
  {
    assert MapSeq(a + b, DecodedOne) == MapSeq(a, DecodedOne) + MapSeq(b, DecodedOne);
    FlattenAppend(MapSeq(a, DecodedOne), MapSeq(b, DecodedOne));
  }

  /** Decoding keeps the transaction and the place in the chain of an event. */
  lemma DecodedPlace(e: RawEvent, t: Transfer)
    requires t in DecodedOne(e)
    ensures t.transactionHash == e.transactionHash && t.blockNumber == e.blockNumber
    ensures t.logIndex == e.logIndex && t.transactionIndex == e.transactionIndex && t.contract == Lower(e.address)
  {
  }

  lemma AddressesAreNotNames(topic: string)
    ensures DecodeAddress(topic) !in {MINT_ADDRESS, BURN_ADDRESS, FREEZE_ADDRESS}
    ensures BURN_ADDRESS !in {MINT_ADDRESS, FREEZE_ADDRESS} && MINT_ADDRESS != FREEZE_ADDRESS
  {
    assert DecodeAddress(topic)[0] == '0' && MINT_ADDRESS[0] == 'm' && BURN_ADDRESS[0] == 'b'
        && FREEZE_ADDRESS[0] == 'f';
  }

  /**
   * A decoded transfer says which kind of event it was: a mint, a burn (also of QNT sent to its own contract) or
   * neither.
   */
  lemma DecodedKinds(e: RawEvent, t: Transfer)
    requires DecodeEvent(e) == Some(t)
    ensures var kind := KindOfEvent(e).value;
            && (t.sender == MINT_ADDRESS <==> kind in {MintEvent, DepositEvent})
            && (t.receiver == BURN_ADDRESS <==>
                  kind in {BurnEvent, WithdrawalEvent}
                  || (kind == TransferEvent && t.contract == QNT_CONTRACT
                      && Lower(DecodeAddress(e.topics.value[2])) == QNT_CONTRACT))
            && (kind in {DepositEvent, WithdrawalEvent} ==> t.contract == WETH_CONTRACT)
            && (kind in {FreezeEvent, UnfreezeEvent} ==> t.contract == BNB_CONTRACT)
  {
    forall i | 0 <= i < |e.topics.value| {
      AddressesAreNotNames(e.topics.value[i]);
    }
  }

  lemma DecodedComesFromALog(events: seq<RawEvent>, t: Transfer)
    requires t in DecodedAll(events)
    ensures exists e :: e in events && t.transactionHash == e.transactionHash && t.blockNumber == e.blockNumber
                     && t.logIndex == e.logIndex && t.transactionIndex == e.transactionIndex
  {
    FlattenMember(MapSeq(events, DecodedOne), t);
    var i :| 0 <= i < |events| && t in MapSeq(events, DecodedOne)[i];
    DecodedPlace(events[i], t);
  }

  lemma DecodedStep(events: seq<RawEvent>, i: nat)
    requires i < |events|
    ensures DecodedAll(events[..i + 1]) == DecodedAll(events[..i]) + DecodedOne(events[i])
  {
    assert events[..i + 1] == events[..i] + [events[i]];
    MapSnoc(events[..i], events[i], DecodedOne);
    FlattenSnoc(MapSeq(events[..i], DecodedOne), DecodedOne(events[i]));
  }

  method DecodeEvents(events: seq<RawEvent>) returns (result: seq<Transfer>)
    ensures result == DecodedAll(events)
  {
    result := [];
    for i := 0 to |events|
      invariant result == DecodedAll(events[..i])
    {
      DecodedStep(events, i);
      var decoded := DecodeEvent(events[i]);
      if decoded.Some? {
        result := result + [decoded.value];
      }
    }
    assert events[..|events|] == events;
  }
}

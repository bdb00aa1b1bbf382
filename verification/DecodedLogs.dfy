/** What a decoded transfer says of its log, from the log's own fields: the decoding of erc20/lib/fetch_events.ts. */
module DecodedLogs {
  import opened Common
  import opened FetchEvents

  // ----- Which logs decode, and to what -----

  /** The signatures whose events name one address, and the contract they are bound to, if they are. */
  predicate NamesOneAddress(topic: string, contract: string) {
    || topic in {BURN_TOPIC, MINT_TOPIC, CREATE_BAT_TOPIC}
    || (topic in {FREEZE_TOPIC, UNFREEZE_TOPIC} && contract == BNB_CONTRACT)
    || (topic in {DEPOSIT_TOPIC, WITHDRAWAL_TOPIC} && contract == WETH_CONTRACT)
  }

  /** A log that stands for a transfer. */
  predicate TellsATransfer(e: RawEvent) {
    e.topics.Some? &&
    match |e.topics.value|
    case 3 => e.topics.value[0] == TRANSFER_TOPIC
    case 2 => NamesOneAddress(e.topics.value[0], Lower(e.address))
    case _ => false
  }

  /** Amount, contract and place are those of the log. */
  predicate SameEvent(e: RawEvent, t: Transfer) {
    && t.amount == e.data && t.contract == Lower(e.address) && t.blockNumber == e.blockNumber
    && t.transactionHash == e.transactionHash && t.logIndex == e.logIndex && t.transactionIndex == e.transactionIndex
  }

  /** QNT sent to its own contract is burnt. */
  predicate BurnsQnt(e: RawEvent, receiver: string) {
    Lower(e.address) == QNT_CONTRACT && Lower(receiver) == QNT_CONTRACT
  }

  /** The first address after the signature gives, unless the event brings tokens to it. */
  predicate PartiesOf(e: RawEvent, t: Transfer)
    requires TellsATransfer(e)
  {
    var topic, first := e.topics.value[0], DecodeAddress(e.topics.value[1]);
    if |e.topics.value| == 3 then
      var second := DecodeAddress(e.topics.value[2]);
      && t.sender == first
      && (BurnsQnt(e, second) ==> t.receiver == BURN_ADDRESS) && (!BurnsQnt(e, second) ==> t.receiver == second)
    else
      && (topic in {MINT_TOPIC, CREATE_BAT_TOPIC, DEPOSIT_TOPIC} ==> t.sender == MINT_ADDRESS && t.receiver == first)
      && (topic in {BURN_TOPIC, WITHDRAWAL_TOPIC} ==> t.sender == first && t.receiver == BURN_ADDRESS)
      && (topic == FREEZE_TOPIC ==> t.sender == first && t.receiver == FREEZE_ADDRESS)
      && (topic == UNFREEZE_TOPIC ==> t.sender == FREEZE_ADDRESS && t.receiver == first)
  }

  /** Exactly the logs that tell a transfer decode: by number of topics, signature and contract. */
  lemma DecodesIff(e: RawEvent)
    ensures DecodeEvent(e).Some? <==> TellsATransfer(e)
  {
  }

  /** Amount, contract, place and both parties of what is decoded, from the fields of the log. */
  lemma DecodedFields(e: RawEvent, t: Transfer)
    requires DecodeEvent(e) == Some(t)
    ensures TellsATransfer(e) && SameEvent(e, t) && PartiesOf(e, t)
  {
    DecodesIff(e);
  }

  // ----- From the contract's event to the transfer -----

  /** What a contract reports, with the addresses it names. */
  datatype Report =
    | Moved(sender: string, receiver: string)
    | Burned(owner: string)
    | Minted(owner: string)
    | CreatedBat(owner: string)
    | Frozen(owner: string)
    | Unfrozen(owner: string)
    | Deposited(owner: string)
    | Withdrawn(owner: string)

  /** An address is 0x and forty more characters. */
  predicate IsAddress(a: string) {
    |a| == 42 && a[..2] == "0x"
  }

  /** The topic of 32 bytes that holds an address of 20. */
  function TopicOf(address: string): string
    requires IsAddress(address)
  {
    "0x000000000000000000000000" + address[2..]
  }

  predicate NamesAddresses(report: Report) {
    if report.Moved? then IsAddress(report.sender) && IsAddress(report.receiver) else IsAddress(report.owner)
  }

  function TopicsOf(report: Report): seq<string>
    requires NamesAddresses(report)
  {
    match report
    case Moved(a, b) => [TRANSFER_TOPIC, TopicOf(a), TopicOf(b)]
    case Burned(a) => [BURN_TOPIC, TopicOf(a)]
    case Minted(a) => [MINT_TOPIC, TopicOf(a)]
    case CreatedBat(a) => [CREATE_BAT_TOPIC, TopicOf(a)]
    case Frozen(a) => [FREEZE_TOPIC, TopicOf(a)]
    case Unfrozen(a) => [UNFREEZE_TOPIC, TopicOf(a)]
    case Deposited(a) => [DEPOSIT_TOPIC, TopicOf(a)]
    case Withdrawn(a) => [WITHDRAWAL_TOPIC, TopicOf(a)]
  }

  /** The parties a report is exported with; freezes are BNB's alone, deposits and withdrawals WETH's. */
  function Exported(report: Report, contract: string): Option<(string, string)> {
    match report
    case Moved(a, b) => Some((a, if contract == QNT_CONTRACT && Lower(b) == QNT_CONTRACT then BURN_ADDRESS else b))
    case Burned(a) => Some((a, BURN_ADDRESS))
    case Minted(a) => Some((MINT_ADDRESS, a))
    case CreatedBat(a) => Some((MINT_ADDRESS, a))
    case Frozen(a) => if contract == BNB_CONTRACT then Some((a, FREEZE_ADDRESS)) else None
    case Unfrozen(a) => if contract == BNB_CONTRACT then Some((FREEZE_ADDRESS, a)) else None
    case Deposited(a) => if contract == WETH_CONTRACT then Some((MINT_ADDRESS, a)) else None
    case Withdrawn(a) => if contract == WETH_CONTRACT then Some((a, BURN_ADDRESS)) else None
  }

  lemma AddressOfTopic(a: string)
    requires IsAddress(a)
    ensures DecodeAddress(TopicOf(a)) == a
  {
    assert TopicOf(a)[|TopicOf(a)| - 40..] == a[2..];
    assert a == a[..2] + a[2..];
  }

  /** The log of a report decodes to the parties it names, with the log's amount, contract and place. */
  lemma DecodingInvertsLogging(e: RawEvent, report: Report)
    requires NamesAddresses(report) && e.topics == Some(TopicsOf(report))
    ensures match Exported(report, Lower(e.address))
            case None => DecodeEvent(e).None?
            case Some((sender, receiver)) =>
              DecodeEvent(e) == Some(Transfer(sender, receiver, e.data, Lower(e.address), e.blockNumber,
                                              e.transactionHash, e.logIndex, e.transactionIndex))
  {
    if report.Moved? {
      AddressOfTopic(report.sender);
      AddressOfTopic(report.receiver);
    } else {
      AddressOfTopic(report.owner);
    }
  }

  /** Contracts are compared in lower case: capital letters become small ones, and the rest stays. */
  lemma LowerCase(s: string, i: nat)
    requires i < |s|
    ensures |Lower(s)| == |s| && Lower(Lower(s)) == Lower(s)
    ensures 'A' <= s[i] <= 'Z' ==> Lower(s)[i] - 'a' == s[i] - 'A'
    ensures !('A' <= s[i] <= 'Z') ==> Lower(s)[i] == s[i]
  {
  }

  // ----- All logs -----

  /** The transfer tells this log. */
  predicate Tells(e: RawEvent, t: Transfer) {
    TellsATransfer(e) && SameEvent(e, t) && PartiesOf(e, t)
  }

  lemma OneDecoded(e: RawEvent)
    ensures if TellsATransfer(e) then |DecodedAll([e])| == 1 && Tells(e, DecodedAll([e])[0]) else DecodedAll([e]) == []
    ensures Filter([e], TellsATransfer) == if TellsATransfer(e) then [e] else []
  {
    DecodesIff(e);
    if DecodeEvent(e).Some? {
      DecodedFields(e, DecodeEvent(e).value);
    }
    FlattenSnoc([], DecodedOne(e));
    assert MapSeq([e], DecodedOne) == [] + [DecodedOne(e)];
    FilterSnoc([], e, TellsATransfer);
    assert [] + [e] == [e];
  }

  predicate AllTold(told: seq<RawEvent>, transfers: seq<Transfer>) {
    |transfers| == |told| && forall i :: 0 <= i < |told| ==> Tells(told[i], transfers[i])
  }

  lemma ToldAppend(a: seq<RawEvent>, x: seq<Transfer>, b: seq<RawEvent>, y: seq<Transfer>)
    requires AllTold(a, x) && AllTold(b, y)
    ensures AllTold(a + b, x + y)
  {
  }

  /** The transfers of a list of logs tell its logs in order, passing over only those that tell none. */
  lemma {:induction false} DecodedInOrder(events: seq<RawEvent>)
    ensures AllTold(Filter(events, TellsATransfer), DecodedAll(events))
  {
    if events != [] {
      var init, last := events[..|events| - 1], events[|events| - 1];
      assert events == init + [last];
      DecodedInOrder(init);
      OneDecoded(last);
      DecodedAppend(init, [last]);
      FilterAppend(init, [last], TellsATransfer);
      ToldAppend(Filter(init, TellsATransfer), DecodedAll(init), Filter([last], TellsATransfer), DecodedAll([last]));
    }
  }
}

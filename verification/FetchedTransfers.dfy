/**
 * What a fetch returns, told from the logs of the chain: each transfer tells a log, and each log is told. This puts
 * together the query, the decoding and the filtering of erc20/lib/fetch_events.ts.
 */
module FetchedTransfers {
  import opened Common
  import opened Chunks
  import opened FetchEvents
  import opened FilterEvents
  import opened CustomDistribution
  import opened ChunkedFetch
  import opened DecodedLogs
  import opened RepeatedTransfers

  // ----- Addresses that differ in capitals only -----

  /** The same letter, or a capital and its small letter. */
  predicate SameLetter(c: char, d: char) {
    c == d || ('A' <= c <= 'Z' && d as int == c as int + 32) || ('A' <= d <= 'Z' && c as int == d as int + 32)
  }

  predicate SameLetters(a: string, b: string) {
    |a| == |b| && forall i :: 0 <= i < |a| ==> SameLetter(a[i], b[i])
  }

  lemma LowerIffSameLetters(a: string, b: string)
    ensures Lower(a) == Lower(b) <==> SameLetters(a, b)
  {
    if SameLetters(a, b) {
      assert forall i :: 0 <= i < |a| ==> SameLetter(a[i], b[i]) && Lower(a)[i] == Lower(b)[i];
    }
    if Lower(a) == Lower(b) {
      assert |a| == |Lower(a)| && |b| == |Lower(b)|;
      forall i | 0 <= i < |a| ensures SameLetter(a[i], b[i]) {
        assert Lower(a)[i] == Lower(b)[i];
      }
    }
  }

  // ----- Logs and transfers -----

  /** The filter lets the log through: there is none, or it lists the log's address in some spelling. */
  predicate LetsThrough(filter: ContractFilter, e: RawEvent) {
    filter.None? || exists i :: 0 <= i < |filter.value| && SameLetters(filter.value[i], e.address)
  }

  lemma WantedIff(filter: ContractFilter, e: RawEvent)
    ensures Wanted(filter, e) <==> LetsThrough(filter, e)
  {
    if filter.Some? {
      forall i | 0 <= i < |filter.value|
        ensures Lower(filter.value[i]) == Lower(e.address) <==> SameLetters(filter.value[i], e.address)
      {
        LowerIffSameLetters(filter.value[i], e.address);
      }
    }
  }

  /** A log of the block that the filter lets through, and that tells the transfer. */
  ghost predicate IsLogOf(node: Node, filter: ContractFilter, block: int, e: RawEvent, t: Transfer) {
    e in node.logs(block) && LetsThrough(filter, e) && Tells(e, t)
  }

  /** The logs that a fetch of one block asks for. */
  function LogsAsked(node: Node, filter: ContractFilter, block: int): seq<RawEvent> {
    BlockLogs(node, filter, block, block)
  }

  lemma AskedIff(node: Node, filter: ContractFilter, block: int, e: RawEvent)
    ensures e in LogsAsked(node, filter, block) <==> e in node.logs(block) && LetsThrough(filter, e)
  {
    assert BlockLogs(node, filter, block + 1, block) == [];
    assert LogsAsked(node, filter, block) == Filter(node.logs(block), Wants(filter)) + [];
    FilterMember(node.logs(block), Wants(filter), e);
    WantedIff(filter, e);
  }

  lemma DecodedIff(events: seq<RawEvent>, t: Transfer)
    ensures t in DecodedAll(events) <==> exists e :: e in events && Tells(e, t)
  {
    var told := Filter(events, TellsATransfer);
    DecodedInOrder(events);
    if t in DecodedAll(events) {
      var i :| 0 <= i < |told| && DecodedAll(events)[i] == t;
      FilterMember(events, TellsATransfer, told[i]);
      assert Tells(told[i], t);
    }
    if e :| e in events && Tells(e, t) {
      FilterMember(events, TellsATransfer, e);
      var i :| 0 <= i < |told| && told[i] == e;
      TellsOne(e, t, DecodedAll(events)[i]);
    }
  }

  /** A log tells one transfer only. */
  lemma TellsOne(e: RawEvent, t: Transfer, u: Transfer)
    requires Tells(e, t) && Tells(e, u)
    ensures t == u
  {
    DecodesIff(e);
    DecodedFields(e, DecodeEvent(e).value);
  }

  // ----- What a fetch returns -----

  lemma UnlimitedTells(node: Node, filter: ContractFilter, block: int, t: Transfer)
    requires t in Unlimited(node, filter, block, block)
    ensures exists e :: IsLogOf(node, filter, block, e, t)
  {
    var decoded := DecodedAll(LogsAsked(node, filter, block));
    FilteredHasHashes(decoded, t);
    DecodedIff(LogsAsked(node, filter, block), t);
    var e :| e in LogsAsked(node, filter, block) && Tells(e, t);
    AskedIff(node, filter, block, e);
    assert IsLogOf(node, filter, block, e, t);
  }

  lemma UnlimitedIsTold(node: Node, filter: ContractFilter, block: int, e: RawEvent, t: Transfer)
    requires IsLogOf(node, filter, block, e, t) && t.transactionHash != 0
    ensures IsTold(Unlimited(node, filter, block, block), TellOf(t))
  {
    var decoded := DecodedAll(LogsAsked(node, filter, block));
    AskedIff(node, filter, block, e);
    DecodedIff(LogsAsked(node, filter, block), t);
    var i :| 0 <= i < |decoded| && decoded[i] == t;
    assert IsTold(decoded, TellOf(t));
    NothingToldIsLost(decoded, TellOf(t));
  }

  lemma PartOfFetch(node: Node, filter: ContractFilter, c: Custom, lo: int, hi: int, concurrency: int, t: Transfer)
    requires OneBlockPerTransaction(node) && LogsOfTheirBlock(node) && concurrency >= 1
    requires FetchPastEvents(node, filter, c, lo, hi, concurrency).Ok?
    ensures t in FetchPastEvents(node, filter, c, lo, hi, concurrency).value
            <==> lo <= t.blockNumber <= hi && t in BlockTransfers(node, filter, c, t.blockNumber)
  {
    var r := FetchPastEvents(node, filter, c, lo, hi, concurrency);
    FetchOfBlock(node, filter, c, lo, hi, concurrency, t.blockNumber);
    FilterMember(r.value, TransferInBlock(t.blockNumber), t);
  }

  /**
   * Each transfer of a fetch tells a log of a block of the range that the filter lets through, with that log's
   * parties, amount and place, or is one of the constant transfers.
   */
  lemma FetchedTellALog(node: Node, filter: ContractFilter, c: Custom, lo: int, hi: int, concurrency: int, t: Transfer)
    requires OneBlockPerTransaction(node) && LogsOfTheirBlock(node) && concurrency >= 1
    requires FetchPastEvents(node, filter, c, lo, hi, concurrency).Ok?
    requires t in FetchPastEvents(node, filter, c, lo, hi, concurrency).value
    ensures lo <= t.blockNumber <= hi
    ensures (exists e :: IsLogOf(node, filter, t.blockNumber, e, t))
            || (t.blockNumber == c.blockNumber && t in Constants(node, filter, c))
  {
    PartOfFetch(node, filter, c, lo, hi, concurrency, t);
    if t in Unlimited(node, filter, t.blockNumber, t.blockNumber) {
      UnlimitedTells(node, filter, t.blockNumber, t);
    }
  }

  lemma ToldInFetch(node: Node, filter: ContractFilter, c: Custom, block: int, u: Transfer)
    requires u in Unlimited(node, filter, block, block)
    ensures u in BlockTransfers(node, filter, c, block)
  {
  }

  /**
   * And each log of the range that the filter lets through, and that tells a transfer, is told: some transfer of the
   * fetch has its transaction, token and amount, and leaves and reaches the same holders.
   */
  lemma LogsAreTold(node: Node, filter: ContractFilter, c: Custom, lo: int, hi: int, concurrency: int, block: int,
                    e: RawEvent, t: Transfer)
    requires OneBlockPerTransaction(node) && LogsOfTheirBlock(node) && concurrency >= 1 && lo <= block <= hi
    requires FetchPastEvents(node, filter, c, lo, hi, concurrency).Ok?
    requires IsLogOf(node, filter, block, e, t)
    ensures IsTold(FetchPastEvents(node, filter, c, lo, hi, concurrency).value, TellOf(t))
  {
    assert HashesInBlock(node, block);
    UnlimitedIsTold(node, filter, block, e, t);
    var kept := Unlimited(node, filter, block, block);
    var i :| 0 <= i < |kept| && TellOf(kept[i]) == TellOf(t);
    UnlimitedTells(node, filter, block, kept[i]);
    PartOfFetch(node, filter, c, lo, hi, concurrency, kept[i]);
    ToldInFetch(node, filter, c, block, kept[i]);
    var all := FetchPastEvents(node, filter, c, lo, hi, concurrency).value;
    var j :| 0 <= j < |all| && all[j] == kept[i];
  }

  // ----- How a fetch goes about it, and when it fails -----

  /** A fetch sends no more queries at once than connections are allowed, for ranges that make up the whole. */
  lemma FetchInChunks(node: Node, filter: ContractFilter, c: Custom, lo: int, hi: int, concurrency: int)
    returns (chunks: seq<Chunk>)
    requires concurrency >= 1 && lo <= hi && filter != Some([])
    ensures Cuts(chunks, lo, hi) && 1 <= |chunks| <= concurrency && Proper(chunks)
    ensures FetchPastEvents(node, filter, c, lo, hi, concurrency)
         == Gather(node, filter, c, Timestamps(node, lo, hi), chunks)
  {
    var size := CeilDiv(hi - lo + 1, Min(concurrency, hi - lo + 1));
    chunks := InclusiveChunks(lo, hi, size);
    AtMostConcurrencyChunks(lo, hi, concurrency);
    InclusiveChunksCut(lo, hi, size);
    CutsAreProper(chunks, lo, hi);
  }

  /** A log of the range that tells a transfer, of a block for which the node gave no timestamp. */
  ghost predicate Unstamped(node: Node, filter: ContractFilter, known: seq<int>, lo: int, hi: int, b: int, e: RawEvent)
  {
    lo <= b <= hi && e in node.logs(b) && LetsThrough(filter, e) && TellsATransfer(e) && e.blockNumber !in known
  }

  ghost predicate SomeUnstamped(node: Node, filter: ContractFilter, known: seq<int>, lo: int, hi: int) {
    exists b, e :: Unstamped(node, filter, known, lo, hi, b, e)
  }

  lemma {:induction false} AskedOfRangeIff(node: Node, filter: ContractFilter, lo: int, hi: int, e: RawEvent)
    ensures e in BlockLogs(node, filter, lo, hi)
            <==> exists b :: lo <= b <= hi && e in node.logs(b) && LetsThrough(filter, e)
    decreases hi - lo
  {
    WantedIff(filter, e);
    if lo <= hi {
      FilterMember(node.logs(lo), Wants(filter), e);
      AskedOfRangeIff(node, filter, lo + 1, hi, e);
    }
  }

  lemma StampedIff(node: Node, filter: ContractFilter, known: seq<int>, lo: int, hi: int)
    ensures Stamped(known, DecodedAll(BlockLogs(node, filter, lo, hi)))
            <==> !SomeUnstamped(node, filter, known, lo, hi)
  {
    var logs := BlockLogs(node, filter, lo, hi);
    var transfers := DecodedAll(logs);
    if b, e :| Unstamped(node, filter, known, lo, hi, b, e) {
      AskedOfRangeIff(node, filter, lo, hi, e);
      DecodesIff(e);
      var t := DecodeEvent(e).value;
      DecodedFields(e, t);
      DecodedIff(logs, t);
    }
    if i :| 0 <= i < |transfers| && transfers[i].blockNumber !in known {
      DecodedIff(logs, transfers[i]);
      var e :| e in logs && Tells(e, transfers[i]);
      AskedOfRangeIff(node, filter, lo, hi, e);
      var b :| lo <= b <= hi && e in node.logs(b);
      assert Unstamped(node, filter, known, lo, hi, b, e);
    }
  }

  lemma UnstampedSplit(node: Node, filter: ContractFilter, known: seq<int>, lo: int, mid: int, hi: int)
    requires lo <= mid + 1 && mid <= hi
    ensures SomeUnstamped(node, filter, known, lo, hi)
            <==> SomeUnstamped(node, filter, known, lo, mid) || SomeUnstamped(node, filter, known, mid + 1, hi)
  {
    if b, e :| Unstamped(node, filter, known, lo, hi, b, e) {
      assert Unstamped(node, filter, known, lo, mid, b, e) || Unstamped(node, filter, known, mid + 1, hi, b, e);
    }
    if b, e :| Unstamped(node, filter, known, lo, mid, b, e) {
      assert Unstamped(node, filter, known, lo, hi, b, e);
    }
    var next := mid + 1;
    if b, e :| Unstamped(node, filter, known, next, hi, b, e) {
      assert Unstamped(node, filter, known, lo, hi, b, e);
    }
  }

  ghost predicate AnswersAll(node: Node) {
    forall a, b :: node.verdict(a, b).Answers?
  }

  lemma QueryFailsIff(node: Node, filter: ContractFilter, c: Custom, known: Option<seq<int>>, lo: int, hi: int)
    requires AnswersAll(node) && lo <= hi
    ensures GetPastEvents(node, filter, c, known, lo, hi).Err?
            <==> known.None? || SomeUnstamped(node, filter, known.value, lo, hi)
  {
    assert node.verdict(lo, hi).Answers?;
    if known.Some? {
      StampedIff(node, filter, known.value, lo, hi);
    }
  }

  lemma GatherErrs(node: Node, filter: ContractFilter, c: Custom, known: Option<seq<int>>, chunks: seq<Chunk>)
    requires Proper(chunks)
    ensures chunks == [] ==> Gather(node, filter, c, known, chunks).Ok?
    ensures chunks != [] ==>
              (Gather(node, filter, c, known, chunks).Err? <==>
               || GetPastEvents(node, filter, c, known, chunks[0].0, chunks[0].1).Err?
               || Gather(node, filter, c, known, chunks[1..]).Err?)
  {
  }

  lemma {:induction false} GatherFailsIff(node: Node, filter: ContractFilter, c: Custom, known: Option<seq<int>>,
                                          chunks: seq<Chunk>, lo: int, hi: int)
    requires AnswersAll(node) && Proper(chunks) && Cuts(chunks, lo, hi) && chunks != []
    ensures Gather(node, filter, c, known, chunks).Err?
            <==> known.None? || SomeUnstamped(node, filter, known.value, lo, hi)
    decreases |chunks|
  {
    var mid, rest := chunks[0].1, chunks[1..];
    GatherErrs(node, filter, c, known, chunks);
    GatherErrs(node, filter, c, known, rest);
    QueryFailsIff(node, filter, c, known, lo, mid);
    if known.Some? {
      UnstampedSplit(node, filter, known.value, lo, mid, hi);
    }
    if rest != [] {
      GatherFailsIff(node, filter, c, known, rest, mid + 1, hi);
    }
  }

  /**
   * With a node that answers all log queries, a fetch fails exactly when the node's blocks for the timestamps are
   * missing, are not as many as the range has, or lack the block of a log that tells a transfer.
   */
  lemma FetchFailsIff(node: Node, filter: ContractFilter, c: Custom, lo: int, hi: int, concurrency: int)
    requires concurrency >= 1 && lo <= hi && filter != Some([]) && AnswersAll(node)
    ensures FetchPastEvents(node, filter, c, lo, hi, concurrency).Err? <==>
            || node.blocks(lo, hi).None?
            || |node.blocks(lo, hi).value| != hi - lo + 1
            || SomeUnstamped(node, filter, node.blocks(lo, hi).value, lo, hi)
  {
    var chunks := FetchInChunks(node, filter, c, lo, hi, concurrency);
    GatherFailsIff(node, filter, c, Timestamps(node, lo, hi), chunks, lo, hi);
  }
}

/** The concurrent fetch of erc20_worker.ts over the chunks of a range, and its agreement with one unlimited query. */
module ChunkedFetch {
  import opened Common
  import opened Chunks
  import opened FetchEvents
  import opened FilterEvents
  import opened CustomDistribution

  const NO_BLOCKS := "Blocks response"
  const NO_TIMESTAMP := "Missing timestamp for block number"

  /** The blocks whose timestamps are known, asked for once for the interval of a call. */
  function Timestamps(node: Node, lo: int, hi: int): Option<seq<int>> {
    var numbers := node.blocks(lo, hi);
    if numbers.Some? && |numbers.value| == hi - lo + 1 then numbers else None
  }

  predicate Stamped(known: seq<int>, transfers: seq<Transfer>) {
    forall i :: 0 <= i < |transfers| ==> transfers[i].blockNumber in known
  }

  /** One fetch, decoded and filtered, and the constant transfers of the range. */
  function GetPastEvents(node: Node, filter: ContractFilter, c: Custom, known: Option<seq<int>>, lo: int, hi: int)
    : Result<seq<Transfer>>
    requires lo <= hi
  {
    match GetRawEvents(node, filter, lo, hi).result
    case Err(error) => Err(error)
    case Ok(events) =>
      if known.None? then Err(NO_BLOCKS)
      else if !Stamped(known.value, DecodedAll(events)) then Err(NO_TIMESTAMP)
      else
        var result := Filtered(DecodedAll(events));
        Ok(result + Distribution(result, filter, c, lo, hi))
  }

  predicate Proper(chunks: seq<Chunk>) {
    forall i :: 0 <= i < |chunks| ==> chunks[i].0 <= chunks[i].1
  }

  /** All chunks together; one that fails makes the whole fail. */
  function Gather(node: Node, filter: ContractFilter, c: Custom, known: Option<seq<int>>, chunks: seq<Chunk>)
    : Result<seq<Transfer>>
    requires Proper(chunks)
  {
    if chunks == [] then Ok([])
    else
      match (GetPastEvents(node, filter, c, known, chunks[0].0, chunks[0].1),
             Gather(node, filter, c, known, chunks[1..]))
      case (Ok(first), Ok(rest)) => Ok(first + rest)
      case (Err(error), _) => Err(error)
      case (_, Err(error)) => Err(error)
  }

  function FetchPastEvents(node: Node, filter: ContractFilter, c: Custom, lo: int, hi: int, concurrency: int)
    : Result<seq<Transfer>>
    requires concurrency >= 1
  {
    if filter.Some? && filter.value == [] then Ok([])
    else if lo > hi then Ok([])
    else
      var chunkSize := CeilDiv(hi - lo + 1, Min(concurrency, hi - lo + 1));
      CeilDivFacts(hi - lo + 1, Min(concurrency, hi - lo + 1));
      ChunksPartition(lo, hi, chunkSize);
      Gather(node, filter, c, Timestamps(node, lo, hi), InclusiveChunks(lo, hi, chunkSize))
  }

  // ----- The chain the node serves -----

  ghost predicate HashesInBlock(node: Node, b: int) {
    forall e :: e in node.logs(b) ==> e.transactionHash != 0
  }

  ghost predicate DisjointBlocks(node: Node, b: int, d: int) {
    forall e, f :: e in node.logs(b) && f in node.logs(d) ==> e.transactionHash != f.transactionHash
  }

  /** Every log has its transaction's hash, and a transaction is in one block. */
  ghost predicate OneBlockPerTransaction(node: Node) {
    && (forall b :: HashesInBlock(node, b))
    && (forall b, d :: b != d ==> DisjointBlocks(node, b, d))
  }

  ghost predicate LogsOfTheirBlock(node: Node) {
    forall b, e :: e in node.logs(b) ==> e.blockNumber == b
  }

  lemma {:induction false} BlockLogsMember(node: Node, filter: ContractFilter, lo: int, hi: int, e: RawEvent)
    requires e in BlockLogs(node, filter, lo, hi)
    ensures exists b :: lo <= b <= hi && e in node.logs(b) && Wanted(filter, e)
    decreases hi - lo
  {
    FilterMember(node.logs(lo), Wants(filter), e);
    if e !in Filter(node.logs(lo), Wants(filter)) {
      BlockLogsMember(node, filter, lo + 1, hi, e);
    }
  }

  /** The result of one query without limits. */
  function Unlimited(node: Node, filter: ContractFilter, lo: int, hi: int): seq<Transfer> {
    Filtered(DecodedAll(BlockLogs(node, filter, lo, hi)))
  }

  lemma DecodedFromBlock(node: Node, filter: ContractFilter, lo: int, hi: int, t: Transfer)
    requires OneBlockPerTransaction(node) && t in DecodedAll(BlockLogs(node, filter, lo, hi))
    ensures HasHash(t)
    ensures exists b, e :: lo <= b <= hi && e in node.logs(b) && e.transactionHash == t.transactionHash
  {
    DecodedComesFromALog(BlockLogs(node, filter, lo, hi), t);
    var e :| e in BlockLogs(node, filter, lo, hi) && t.transactionHash == e.transactionHash;
    BlockLogsMember(node, filter, lo, hi, e);
    var b :| lo <= b <= hi && e in node.logs(b);
    assert HashesInBlock(node, b);
  }

  lemma NoTransactionAcross(node: Node, filter: ContractFilter, lo: int, mid: int, hi: int, s: Transfer, t: Transfer)
    requires OneBlockPerTransaction(node)
    requires s in DecodedAll(BlockLogs(node, filter, lo, mid)) && t in DecodedAll(BlockLogs(node, filter, mid + 1, hi))
    ensures !SameTransaction(s, t)
  {
    DecodedFromBlock(node, filter, lo, mid, s);
    DecodedFromBlock(node, filter, mid + 1, hi, t);
    var b, e :| lo <= b <= mid && e in node.logs(b) && e.transactionHash == s.transactionHash;
    var d, f :| mid + 1 <= d <= hi && f in node.logs(d) && f.transactionHash == t.transactionHash;
    assert DisjointBlocks(node, b, d);
  }

  ghost predicate AllHaveHash(s: seq<Transfer>) {
    forall e :: e in s ==> HasHash(e)
  }

  lemma FilterRunsAppend(a: seq<Run>, b: seq<Run>)
    ensures Flatten(FilterRuns(a + b)) == Flatten(FilterRuns(a)) + Flatten(FilterRuns(b))
  {
    assert FilterRuns(a + b) == FilterRuns(a) + FilterRuns(b);
    FlattenAppend(FilterRuns(a), FilterRuns(b));
  }

  lemma FilteredAppend(a: seq<Transfer>, b: seq<Transfer>)
    requires AllHaveHash(a) && AllHaveHash(b) && Boundary(a, b)
    ensures Filtered(a + b) == Filtered(a) + Filtered(b)
  {
    HashesPresent(a);
    HashesPresent(b);
    HashesPresent(a + b);
    RunsAppend(a, b);
    FilterRunsAppend(Runs(a), Runs(b));
  }

  /** Splitting a range anywhere between two blocks does not change what is exported. */
  lemma UnlimitedSplit(node: Node, filter: ContractFilter, lo: int, mid: int, hi: int)
    requires OneBlockPerTransaction(node) && lo <= mid + 1 && mid <= hi
    ensures Unlimited(node, filter, lo, hi) == Unlimited(node, filter, lo, mid) + Unlimited(node, filter, mid + 1, hi)
  {
    var a, b := DecodedAll(BlockLogs(node, filter, lo, mid)), DecodedAll(BlockLogs(node, filter, mid + 1, hi));
    BlockLogsSplit(node, filter, lo, mid, hi);
    DecodedAppend(BlockLogs(node, filter, lo, mid), BlockLogs(node, filter, mid + 1, hi));
    forall e | e in a ensures HasHash(e) { DecodedFromBlock(node, filter, lo, mid, e); }
    forall e | e in b ensures HasHash(e) { DecodedFromBlock(node, filter, mid + 1, hi, e); }
    if a != [] && b != [] {
      NoTransactionAcross(node, filter, lo, mid, hi, a[|a| - 1], b[0]);
    }
    FilteredAppend(a, b);
  }

  lemma UnlimitedOfNothing(node: Node, filter: ContractFilter, lo: int, hi: int)
    requires BlockLogs(node, filter, lo, hi) == []
    ensures Unlimited(node, filter, lo, hi) == []
  {
  }

  lemma UnlimitedBlocks(node: Node, filter: ContractFilter, lo: int, hi: int, t: Transfer)
    requires LogsOfTheirBlock(node) && t in Unlimited(node, filter, lo, hi)
    ensures lo <= t.blockNumber <= hi
  {
    FilteredHasHashes(DecodedAll(BlockLogs(node, filter, lo, hi)), t);
    DecodedComesFromALog(BlockLogs(node, filter, lo, hi), t);
    var e :| e in BlockLogs(node, filter, lo, hi) && t.blockNumber == e.blockNumber;
    BlockLogsMember(node, filter, lo, hi, e);
  }

  lemma UnlimitedOutside(node: Node, filter: ContractFilter, lo: int, hi: int, block: int)
    requires LogsOfTheirBlock(node) && !(lo <= block <= hi)
    ensures Filter(Unlimited(node, filter, lo, hi), TransferInBlock(block)) == []
  {
    forall t | t in Unlimited(node, filter, lo, hi) ensures t.blockNumber != block {
      UnlimitedBlocks(node, filter, lo, hi, t);
    }
    FilterNone(Unlimited(node, filter, lo, hi), TransferInBlock(block));
  }

  lemma UnlimitedInside(node: Node, filter: ContractFilter, block: int)
    requires LogsOfTheirBlock(node)
    ensures Filter(Unlimited(node, filter, block, block), TransferInBlock(block))
            == Unlimited(node, filter, block, block)
  {
    forall t | t in Unlimited(node, filter, block, block) ensures t.blockNumber == block {
      UnlimitedBlocks(node, filter, block, block, t);
    }
    FilterAll(Unlimited(node, filter, block, block), TransferInBlock(block));
  }

  lemma UnlimitedOfBlock(node: Node, filter: ContractFilter, lo: int, hi: int, block: int)
    requires OneBlockPerTransaction(node) && LogsOfTheirBlock(node) && lo <= block <= hi
    ensures Filter(Unlimited(node, filter, lo, hi), TransferInBlock(block)) == Unlimited(node, filter, block, block)
  {
    var p := TransferInBlock(block);
    var before, at, after := Unlimited(node, filter, lo, block - 1), Unlimited(node, filter, block, block),
                             Unlimited(node, filter, block + 1, hi);
    UnlimitedSplit(node, filter, lo, block - 1, hi);
    UnlimitedSplit(node, filter, block, block, hi);
    UnlimitedOutside(node, filter, lo, block - 1, block);
    UnlimitedOutside(node, filter, block + 1, hi, block);
    UnlimitedInside(node, filter, block);
    FilterAppend(before, at + after, p);
    FilterAppend(at, after, p);
  }

  // ----- What a fetch adds to one query -----

  /** The constant transfers behind the transfers of their block. */
  function Constants(node: Node, filter: ContractFilter, c: Custom): seq<Transfer> {
    Distribution(Unlimited(node, filter, c.blockNumber, c.blockNumber), filter, c, c.blockNumber, c.blockNumber)
  }

  /** Those of a block, if the range has the block. */
  function Within(d: seq<Transfer>, at: int, lo: int, hi: int): seq<Transfer> {
    if lo <= at <= hi then d else []
  }

  /** They are the same wherever the range begins and ends. */
  lemma DistributionOfRange(node: Node, filter: ContractFilter, c: Custom, lo: int, hi: int)
    requires OneBlockPerTransaction(node) && LogsOfTheirBlock(node)
    ensures Distribution(Unlimited(node, filter, lo, hi), filter, c, lo, hi)
         == Within(Constants(node, filter, c), c.blockNumber, lo, hi)
  {
    if lo <= c.blockNumber <= hi {
      LastRealOfBlock(Unlimited(node, filter, lo, hi), c.blockNumber);
      UnlimitedOfBlock(node, filter, lo, hi, c.blockNumber);
    }
  }

  /** One unlimited query, with something put in after block m. */
  function Arranged(node: Node, filter: ContractFilter, d: seq<Transfer>, lo: int, m: int, hi: int): seq<Transfer> {
    Unlimited(node, filter, lo, m) + d + Unlimited(node, filter, m + 1, hi)
  }

  predicate Behind(at: int, lo: int, m: int, hi: int) {
    Min(lo - 1, hi) <= m <= hi && (lo <= at <= hi ==> at <= m)
  }

  /** The events are those of one unlimited query, with d somewhere behind its block. */
  ghost predicate OneQueryWith(events: seq<Transfer>, node: Node, filter: ContractFilter, d: seq<Transfer>, at: int,
                               lo: int, hi: int) {
    exists m :: Behind(at, lo, m, hi) && events == Arranged(node, filter, Within(d, at, lo, hi), lo, m, hi)
  }

  /** One unlimited query and, once and behind their block, the constant transfers. */
  ghost predicate IsOneQuery(events: seq<Transfer>, node: Node, filter: ContractFilter, c: Custom, lo: int, hi: int) {
    OneQueryWith(events, node, filter, Constants(node, filter, c), c.blockNumber, lo, hi)
  }

  /** The chunks cut the range lo to hi, in order. */
  predicate Cuts(chunks: seq<Chunk>, lo: int, hi: int) {
    if chunks == [] then lo > hi
    else chunks[0].0 == lo <= chunks[0].1 <= hi && Cuts(chunks[1..], chunks[0].1 + 1, hi)
  }

  lemma {:induction false} InclusiveChunksCut(lo: int, hi: int, size: int)
    requires size > 0
    ensures Cuts(InclusiveChunks(lo, hi, size), lo, hi)
    decreases hi - lo
  {
    if lo <= hi {
      InclusiveChunksCut(lo + size, hi, size);
      assert InclusiveChunks(lo, hi, size)[1..] == InclusiveChunks(lo + size, hi, size);
    }
  }

  lemma {:induction false} CutsAreProper(chunks: seq<Chunk>, lo: int, hi: int)
    requires Cuts(chunks, lo, hi)
    ensures Proper(chunks)
  {
    if chunks != [] {
      CutsAreProper(chunks[1..], chunks[0].1 + 1, hi);
      forall i | 0 <= i < |chunks| ensures chunks[i].0 <= chunks[i].1 {
        if i > 0 { assert chunks[i] == chunks[1..][i - 1]; }
      }
    }
  }

  /** A fetch of a range is one query, with d at the end if the range has its block. */
  ghost predicate FetchesWith(node: Node, filter: ContractFilter, c: Custom, known: Option<seq<int>>, d: seq<Transfer>,
                              at: int) {
    forall lo, hi :: lo <= hi && GetPastEvents(node, filter, c, known, lo, hi).Ok? ==>
      GetPastEvents(node, filter, c, known, lo, hi).value == Unlimited(node, filter, lo, hi) + Within(d, at, lo, hi)
  }

  lemma FetchIsOneQuery(node: Node, filter: ContractFilter, c: Custom, known: Option<seq<int>>)
    requires OneBlockPerTransaction(node) && LogsOfTheirBlock(node)
    ensures FetchesWith(node, filter, c, known, Constants(node, filter, c), c.blockNumber)
  {
    forall lo, hi | lo <= hi && GetPastEvents(node, filter, c, known, lo, hi).Ok?
      ensures GetPastEvents(node, filter, c, known, lo, hi).value
           == Unlimited(node, filter, lo, hi) + Within(Constants(node, filter, c), c.blockNumber, lo, hi)
    {
      BisectionIsExact(node, filter, lo, hi);
      DistributionOfRange(node, filter, c, lo, hi);
    }
  }

  lemma JoinNothing<T>(a: seq<T>, b: seq<T>)
    ensures a + [] + b == a + b
  {
  }

  lemma JoinFour<T>(a: seq<T>, b: seq<T>, c: seq<T>, d: seq<T>)
    ensures a + [] + (b + c + d) == a + b + c + d
  {
  }

  /** With nothing put in it is one query exactly. */
  lemma PlainIsUnlimited(events: seq<Transfer>, node: Node, filter: ContractFilter, d: seq<Transfer>, at: int,
                         lo: int, hi: int)
    requires OneBlockPerTransaction(node) && OneQueryWith(events, node, filter, d, at, lo, hi)
    requires Within(d, at, lo, hi) == []
    ensures events == Unlimited(node, filter, lo, hi)
  {
    var m :| Behind(at, lo, m, hi) && events == Arranged(node, filter, Within(d, at, lo, hi), lo, m, hi);
    JoinNothing(Unlimited(node, filter, lo, m), Unlimited(node, filter, m + 1, hi));
    if lo <= hi {
      UnlimitedSplit(node, filter, lo, m, hi);
    } else {
      UnlimitedOfNothing(node, filter, lo, hi);
      UnlimitedOfNothing(node, filter, lo, m);
      UnlimitedOfNothing(node, filter, m + 1, hi);
    }
  }

  lemma PutInFirst(node: Node, filter: ContractFilter, d: seq<Transfer>, at: int, lo: int, end: int, hi: int,
                   rest: seq<Transfer>)
    requires lo <= at <= end <= hi && rest == Unlimited(node, filter, end + 1, hi)
    ensures OneQueryWith(Unlimited(node, filter, lo, end) + d + rest, node, filter, d, at, lo, hi)
  {
    assert Behind(at, lo, end, hi);
    assert Unlimited(node, filter, lo, end) + d + rest == Arranged(node, filter, Within(d, at, lo, hi), lo, end, hi);
  }

  lemma PutInLater(node: Node, filter: ContractFilter, d: seq<Transfer>, at: int, lo: int, end: int, m: int, hi: int)
    requires OneBlockPerTransaction(node) && lo <= end <= hi && !(lo <= at <= end) && Behind(at, end + 1, m, hi)
    ensures var rest := Arranged(node, filter, Within(d, at, end + 1, hi), end + 1, m, hi);
            OneQueryWith(Unlimited(node, filter, lo, end) + [] + rest, node, filter, d, at, lo, hi)
  {
    var here, next, last := Unlimited(node, filter, lo, end), Unlimited(node, filter, end + 1, m),
                            Unlimited(node, filter, m + 1, hi);
    UnlimitedSplit(node, filter, lo, end, m);
    JoinFour(here, next, Within(d, at, lo, hi), last);
    assert Behind(at, lo, m, hi);
    assert here + [] + (next + Within(d, at, lo, hi) + last)
        == Arranged(node, filter, Within(d, at, lo, hi), lo, m, hi);
  }

  /** A first chunk and one query for the rest: what is put in is in at most one of the two. */
  lemma ArrangedStep(node: Node, filter: ContractFilter, d: seq<Transfer>, at: int, lo: int, end: int, hi: int,
                     rest: seq<Transfer>)
    requires OneBlockPerTransaction(node) && lo <= end <= hi && OneQueryWith(rest, node, filter, d, at, end + 1, hi)
    ensures OneQueryWith(Unlimited(node, filter, lo, end) + Within(d, at, lo, end) + rest, node, filter, d, at, lo, hi)
  {
    if lo <= at <= end {
      PlainIsUnlimited(rest, node, filter, d, at, end + 1, hi);
      PutInFirst(node, filter, d, at, lo, end, hi, rest);
    } else {
      var m :| Behind(at, end + 1, m, hi) && rest == Arranged(node, filter, Within(d, at, end + 1, hi), end + 1, m, hi);
      PutInLater(node, filter, d, at, lo, end, m, hi);
    }
  }

  lemma GatherStep(node: Node, filter: ContractFilter, c: Custom, known: Option<seq<int>>, chunks: seq<Chunk>)
    requires Proper(chunks) && chunks != [] && Gather(node, filter, c, known, chunks).Ok?
    ensures var first := GetPastEvents(node, filter, c, known, chunks[0].0, chunks[0].1);
            var rest := Gather(node, filter, c, known, chunks[1..]);
            first.Ok? && rest.Ok? && Gather(node, filter, c, known, chunks) == Ok(first.value + rest.value)
  {
  }

  /** Whichever way the range is cut, the chunks together give what one unlimited query gives. */
  lemma {:induction false} GatherIsOneQuery(node: Node, filter: ContractFilter, c: Custom, known: Option<seq<int>>,
                                            d: seq<Transfer>, at: int, chunks: seq<Chunk>, lo: int, hi: int)
    requires OneBlockPerTransaction(node) && FetchesWith(node, filter, c, known, d, at)
    requires Proper(chunks) && Cuts(chunks, lo, hi)
    requires Gather(node, filter, c, known, chunks).Ok?
    ensures OneQueryWith(Gather(node, filter, c, known, chunks).value, node, filter, d, at, lo, hi)
    decreases |chunks|
  {
    if chunks == [] {
      NothingToArrange(node, filter, d, at, lo, hi);
    } else {
      var end := chunks[0].1;
      GatherStep(node, filter, c, known, chunks);
      GatherIsOneQuery(node, filter, c, known, d, at, chunks[1..], end + 1, hi);
      ArrangedStep(node, filter, d, at, lo, end, hi, Gather(node, filter, c, known, chunks[1..]).value);
    }
  }

  lemma NothingToArrange(node: Node, filter: ContractFilter, d: seq<Transfer>, at: int, lo: int, hi: int)
    requires lo > hi
    ensures OneQueryWith([], node, filter, d, at, lo, hi)
  {
    UnlimitedOfNothing(node, filter, lo, hi);
    UnlimitedOfNothing(node, filter, hi + 1, hi);
    assert Behind(at, lo, hi, hi) && [] == Arranged(node, filter, [], lo, hi, hi);
  }

  /** The node fails a query, or the blocks it returned lack one that has a log. */
  ghost predicate NodeFails(node: Node, known: Option<seq<int>>, lo: int, hi: int, error: string) {
    || FailsWithin(node, lo, hi, error)
    || (error == NO_BLOCKS && known.None?)
    || (error == NO_TIMESTAMP && known.Some?
        && exists b, e :: lo <= b <= hi && e in node.logs(b) && e.blockNumber !in known.value)
  }

  lemma FetchFailsOnlyWithTheNode(node: Node, filter: ContractFilter, c: Custom, known: Option<seq<int>>, lo: int,
                                  hi: int)
    requires lo <= hi
    ensures var r := GetPastEvents(node, filter, c, known, lo, hi);
            r.Err? ==> NodeFails(node, known, lo, hi, r.error)
  {
    var raw := GetRawEvents(node, filter, lo, hi).result;
    BisectionFailsOnlyWithTheNode(node, filter, lo, hi);
    if raw.Ok? && known.Some? && !Stamped(known.value, DecodedAll(raw.value)) {
      BisectionIsExact(node, filter, lo, hi);
      var i :| 0 <= i < |DecodedAll(raw.value)| && DecodedAll(raw.value)[i].blockNumber !in known.value;
      DecodedComesFromALog(raw.value, DecodedAll(raw.value)[i]);
      var e :| e in raw.value && DecodedAll(raw.value)[i].blockNumber == e.blockNumber;
      BlockLogsMember(node, filter, lo, hi, e);
    }
  }

  lemma NodeFailsWider(node: Node, known: Option<seq<int>>, lo: int, mid: int, hi: int, error: string)
    requires lo <= mid + 1 && mid <= hi
    ensures NodeFails(node, known, lo, mid, error) ==> NodeFails(node, known, lo, hi, error)
    ensures NodeFails(node, known, mid + 1, hi, error) ==> NodeFails(node, known, lo, hi, error)
  {
  }

  /** A fetch fails only when the node fails. */
  lemma {:induction false} GatherFailsOnlyWithTheNode(node: Node, filter: ContractFilter, c: Custom,
                                                      known: Option<seq<int>>, chunks: seq<Chunk>, lo: int, hi: int)
    requires Proper(chunks) && Cuts(chunks, lo, hi)
    ensures var r := Gather(node, filter, c, known, chunks);
            r.Err? ==> NodeFails(node, known, lo, hi, r.error)
    decreases |chunks|
  {
    var r := Gather(node, filter, c, known, chunks);
    if chunks != [] && r.Err? {
      FetchFailsOnlyWithTheNode(node, filter, c, known, chunks[0].0, chunks[0].1);
      GatherFailsOnlyWithTheNode(node, filter, c, known, chunks[1..], chunks[0].1 + 1, hi);
      NodeFailsWider(node, known, lo, chunks[0].1, hi, r.error);
    }
  }

  lemma NothingWanted(node: Node, lo: int, hi: int)
    ensures BlockLogs(node, Some([]), lo, hi) == []
    decreases hi - lo
  {
    if lo <= hi {
      NothingWanted(node, lo + 1, hi);
      if Filter(node.logs(lo), Wants(Some([]))) != [] {
        FilterMember(node.logs(lo), Wants(Some([])), Filter(node.logs(lo), Wants(Some([])))[0]);
      }
    }
  }

  lemma NothingAsked(node: Node, c: Custom, lo: int, hi: int)
    ensures IsOneQuery([], node, Some([]), c, lo, hi)
  {
    NothingWanted(node, lo, hi);
    UnlimitedOfNothing(node, Some([]), lo, hi);
    NothingWanted(node, hi + 1, hi);
    UnlimitedOfNothing(node, Some([]), hi + 1, hi);
    assert Constants(node, Some([]), c) == [];
    assert Behind(c.blockNumber, lo, hi, hi) && [] == Arranged(node, Some([]), [], lo, hi, hi);
  }

  /** The outcome is one query, or an error that the node gave. */
  ghost predicate OneQueryOrFailure(r: Result<seq<Transfer>>, node: Node, filter: ContractFilter, c: Custom,
                                    known: Option<seq<int>>, lo: int, hi: int) {
    match r
    case Ok(events) => IsOneQuery(events, node, filter, c, lo, hi)
    case Err(error) => NodeFails(node, known, lo, hi, error)
  }

  lemma GatheredOr(node: Node, filter: ContractFilter, c: Custom, known: Option<seq<int>>, chunks: seq<Chunk>,
                   lo: int, hi: int)
    requires OneBlockPerTransaction(node) && LogsOfTheirBlock(node) && Proper(chunks) && Cuts(chunks, lo, hi)
    ensures OneQueryOrFailure(Gather(node, filter, c, known, chunks), node, filter, c, known, lo, hi)
  {
    if Gather(node, filter, c, known, chunks).Ok? {
      FetchIsOneQuery(node, filter, c, known);
      GatherIsOneQuery(node, filter, c, known, Constants(node, filter, c), c.blockNumber, chunks, lo, hi);
    } else {
      GatherFailsOnlyWithTheNode(node, filter, c, known, chunks, lo, hi);
    }
  }

  /**
   * However many connections are used and whatever queries the node finds too big, the fetch returns
   * what one unlimited query returns, and the constant transfers once, unless the node fails for another reason.
   */
  lemma ChunkedFetchIsOneQuery(node: Node, filter: ContractFilter, c: Custom, lo: int, hi: int, concurrency: int)
    requires OneBlockPerTransaction(node) && LogsOfTheirBlock(node) && concurrency >= 1
    ensures OneQueryOrFailure(FetchPastEvents(node, filter, c, lo, hi, concurrency), node, filter, c,
                              Timestamps(node, lo, hi), lo, hi)
  {
    if filter == Some([]) {
      NothingAsked(node, c, lo, hi);
    } else if lo > hi {
      NothingToArrange(node, filter, Constants(node, filter, c), c.blockNumber, lo, hi);
    } else {
      var count := Min(concurrency, hi - lo + 1);
      CeilDivFacts(hi - lo + 1, count);
      var chunks := InclusiveChunks(lo, hi, CeilDiv(hi - lo + 1, count));
      InclusiveChunksCut(lo, hi, CeilDiv(hi - lo + 1, count));
      CutsAreProper(chunks, lo, hi);
      GatheredOr(node, filter, c, Timestamps(node, lo, hi), chunks, lo, hi);
    }
  }

  // ----- Block by block -----

  /** What a fetch of one block returns. */
  function BlockTransfers(node: Node, filter: ContractFilter, c: Custom, block: int): seq<Transfer> {
    Unlimited(node, filter, block, block) + Within(Constants(node, filter, c), c.blockNumber, block, block)
  }

  ghost predicate AllAt(d: seq<Transfer>, at: int) {
    forall t :: t in d ==> t.blockNumber == at
  }

  lemma ConstantsAt(node: Node, filter: ContractFilter, c: Custom)
    ensures AllAt(Constants(node, filter, c), c.blockNumber)
  {
    AddedPlaces(Unlimited(node, filter, c.blockNumber, c.blockNumber), c);
  }

  lemma WithinBlock(d: seq<Transfer>, at: int, lo: int, hi: int, block: int)
    requires AllAt(d, at)
    ensures Filter(Within(d, at, lo, hi), TransferInBlock(block))
            == if lo <= block <= hi then Within(d, at, block, block) else []
  {
    if block == at {
      FilterAll(Within(d, at, lo, hi), TransferInBlock(block));
    } else {
      FilterNone(Within(d, at, lo, hi), TransferInBlock(block));
    }
  }

  lemma UnlimitedInBlock(node: Node, filter: ContractFilter, lo: int, hi: int, block: int)
    requires OneBlockPerTransaction(node) && LogsOfTheirBlock(node)
    ensures Filter(Unlimited(node, filter, lo, hi), TransferInBlock(block)) ==
            if lo <= block <= hi then Unlimited(node, filter, block, block) else []
  {
    if lo <= block <= hi {
      UnlimitedOfBlock(node, filter, lo, hi, block);
    } else {
      UnlimitedOutside(node, filter, lo, hi, block);
    }
  }

  /** A block of one query holds its own transfers, and behind them what is put in at the block. */
  lemma OneQueryOfBlock(events: seq<Transfer>, node: Node, filter: ContractFilter, d: seq<Transfer>, at: int,
                        lo: int, hi: int, block: int)
    requires OneBlockPerTransaction(node) && LogsOfTheirBlock(node) && AllAt(d, at)
    requires OneQueryWith(events, node, filter, d, at, lo, hi)
    ensures Filter(events, TransferInBlock(block)) ==
            if lo <= block <= hi then Unlimited(node, filter, block, block) + Within(d, at, block, block) else []
  {
    var p := TransferInBlock(block);
    var m :| Behind(at, lo, m, hi) && events == Arranged(node, filter, Within(d, at, lo, hi), lo, m, hi);
    var before, added, after := Unlimited(node, filter, lo, m), Within(d, at, lo, hi),
        Unlimited(node, filter, m + 1, hi);
    FilterAppend(before + added, after, p);
    FilterAppend(before, added, p);
    UnlimitedInBlock(node, filter, lo, m, block);
    UnlimitedInBlock(node, filter, m + 1, hi, block);
    WithinBlock(d, at, lo, hi, block);
  }

  /** A block of a fetched range holds what fetching the block alone returns, in that order. */
  lemma FetchOfBlock(node: Node, filter: ContractFilter, c: Custom, lo: int, hi: int, concurrency: int, block: int)
    requires OneBlockPerTransaction(node) && LogsOfTheirBlock(node) && concurrency >= 1
    ensures var r := FetchPastEvents(node, filter, c, lo, hi, concurrency);
            r.Ok? ==> Filter(r.value, TransferInBlock(block)) ==
                      if lo <= block <= hi then BlockTransfers(node, filter, c, block) else []
  {
    var r := FetchPastEvents(node, filter, c, lo, hi, concurrency);
    ChunkedFetchIsOneQuery(node, filter, c, lo, hi, concurrency);
    ConstantsAt(node, filter, c);
    if r.Ok? {
      OneQueryOfBlock(r.value, node, filter, Constants(node, filter, c), c.blockNumber, lo, hi, block);
    }
  }

  /** Where no constant transfers are asked for, a fetch is one query exactly. */
  lemma PlainFetch(node: Node, filter: ContractFilter, c: Custom, lo: int, hi: int, concurrency: int)
    requires OneBlockPerTransaction(node) && LogsOfTheirBlock(node) && concurrency >= 1 && !Asks(filter, c)
    ensures var r := FetchPastEvents(node, filter, c, lo, hi, concurrency);
            r.Ok? ==> r.value == Unlimited(node, filter, lo, hi)
  {
    var r := FetchPastEvents(node, filter, c, lo, hi, concurrency);
    ChunkedFetchIsOneQuery(node, filter, c, lo, hi, concurrency);
    if r.Ok? {
      PlainIsUnlimited(r.value, node, filter, Constants(node, filter, c), c.blockNumber, lo, hi);
    }
  }

  lemma BlockOfTwo(node: Node, filter: ContractFilter, c: Custom, lo: int, mid: int, hi: int, n1: int, n2: int,
                   block: int)
    requires OneBlockPerTransaction(node) && LogsOfTheirBlock(node) && lo <= mid + 1 && mid <= hi && n1 >= 1 && n2 >= 1
    ensures var first := FetchPastEvents(node, filter, c, lo, mid, n1);
            var second := FetchPastEvents(node, filter, c, mid + 1, hi, n2);
            first.Ok? && second.Ok? ==> Filter(first.value + second.value, TransferInBlock(block)) ==
                                        if lo <= block <= hi then BlockTransfers(node, filter, c, block) else []
  {
    var first := FetchPastEvents(node, filter, c, lo, mid, n1);
    var second := FetchPastEvents(node, filter, c, mid + 1, hi, n2);
    FetchOfBlock(node, filter, c, lo, mid, n1, block);
    FetchOfBlock(node, filter, c, mid + 1, hi, n2, block);
    if first.Ok? && second.Ok? {
      FilterAppend(first.value, second.value, TransferInBlock(block));
    }
  }

  lemma PlainTwo(node: Node, filter: ContractFilter, c: Custom, lo: int, mid: int, hi: int, n1: int, n2: int)
    requires OneBlockPerTransaction(node) && LogsOfTheirBlock(node) && lo <= mid + 1 && mid <= hi && n1 >= 1 && n2 >= 1
    requires !Asks(filter, c)
    ensures var first := FetchPastEvents(node, filter, c, lo, mid, n1);
            var second := FetchPastEvents(node, filter, c, mid + 1, hi, n2);
            first.Ok? && second.Ok? ==> first.value + second.value == Unlimited(node, filter, lo, hi)
  {
    PlainFetch(node, filter, c, lo, mid, n1);
    PlainFetch(node, filter, c, mid + 1, hi, n2);
    UnlimitedSplit(node, filter, lo, mid, hi);
  }

  /** Exporting a range in one work call or in two gives the same events of each block, with any connection limits. */
  lemma IntervalsDoNotMatter(node: Node, filter: ContractFilter, c: Custom, lo: int, mid: int, hi: int,
                             n: int, n1: int, n2: int, block: int)
    requires OneBlockPerTransaction(node) && LogsOfTheirBlock(node) && lo <= mid + 1 && mid <= hi
    requires n >= 1 && n1 >= 1 && n2 >= 1
    ensures var whole := FetchPastEvents(node, filter, c, lo, hi, n);
            var first := FetchPastEvents(node, filter, c, lo, mid, n1);
            var second := FetchPastEvents(node, filter, c, mid + 1, hi, n2);
            whole.Ok? && first.Ok? && second.Ok? ==>
              && Filter(whole.value, TransferInBlock(block))
                  == Filter(first.value + second.value, TransferInBlock(block))
              && (!Asks(filter, c) ==> whole.value == first.value + second.value)
  {
    FetchOfBlock(node, filter, c, lo, hi, n, block);
    BlockOfTwo(node, filter, c, lo, mid, hi, n1, n2, block);
    if !Asks(filter, c) {
      PlainFetch(node, filter, c, lo, hi, n);
      PlainTwo(node, filter, c, lo, mid, hi, n1, n2);
    }
  }
}

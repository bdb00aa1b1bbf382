/** The constant transfers that a contract filter adds to what is fetched: erc20/lib/custom_token_distribution.ts. */
module CustomDistribution {
  import opened Common
  import opened FetchEvents

  /** A line of the file, with the hash made from it; a sign or an amount that is no whole number counts as 0. */
  datatype Row = Row(sign: int, address: string, amount: int, hash: Hash)

  /** The entry of the table: the transfers of a contract, at a block. */
  datatype Custom = Custom(contract: string, blockNumber: int, rows: seq<Row>)

  /** The transaction index that the comparators take for one that is absent. */
  const NO_INDEX := -1

  predicate Usable(row: Row) {
    |row.address| > 0 && row.sign != 0 && row.amount > 0
  }

  function TransferOf(row: Row, c: Custom, logIndex: int): Transfer
    requires Usable(row)
  {
    Transfer(if row.sign > 0 then MINT_ADDRESS else row.address, if row.sign > 0 then row.address else BURN_ADDRESS,
             row.amount, c.contract, c.blockNumber, row.hash, logIndex, NO_INDEX)
  }

  /** The usable rows as transfers, numbered on from the given index. */
  function Numbered(rows: seq<Row>, c: Custom, reached: int): seq<Transfer> {
    if rows == [] then []
    else
      var before, row := Numbered(rows[..|rows| - 1], c, reached), rows[|rows| - 1];
      if Usable(row) then before + [TransferOf(row, c, reached + |before| + 1)] else before
  }

  function LastRealLogIndex(transfers: seq<Transfer>, block: int): int {
    if transfers == [] then 0
    else
      var before, t := LastRealLogIndex(transfers[..|transfers| - 1], block), transfers[|transfers| - 1];
      if t.blockNumber == block && t.logIndex > before then t.logIndex else before
  }

  method GetLastRealLogIndexForBlock(transfers: seq<Transfer>, block: int) returns (lastLogIndex: int)
    ensures lastLogIndex == LastRealLogIndex(transfers, block)
  {
    lastLogIndex := 0;
    for i := 0 to |transfers|
      invariant lastLogIndex == LastRealLogIndex(transfers[..i], block)
    {
      assert transfers[..i + 1][..i] == transfers[..i];
      if transfers[i].blockNumber == block && transfers[i].logIndex > lastLogIndex {
        lastLogIndex := transfers[i].logIndex;
      }
    }
    assert transfers[..|transfers|] == transfers;
  }

  /** What is added behind the transfers of its block. */
  function Added(transfers: seq<Transfer>, c: Custom): seq<Transfer> {
    Numbered(c.rows, c, LastRealLogIndex(transfers, c.blockNumber))
  }

  method AddTransfers(transfers: seq<Transfer>, c: Custom) returns (result: seq<Transfer>)
    ensures result == transfers + Added(transfers, c)
  {
    var lastReal := GetLastRealLogIndexForBlock(transfers, c.blockNumber);
    var logIndexReached := lastReal;
    var added := [];
    for i := 0 to |c.rows|
      invariant logIndexReached == lastReal + |added|
      invariant added == Numbered(c.rows[..i], c, lastReal)
    {
      assert c.rows[..i + 1][..i] == c.rows[..i];
      if Usable(c.rows[i]) {
        logIndexReached := logIndexReached + 1;
        added := added + [TransferOf(c.rows[i], c, logIndexReached)];
      }
    }
    assert c.rows[..|c.rows|] == c.rows;
    return transfers + added;
  }

  predicate Asks(filter: ContractFilter, c: Custom) {
    filter.Some? && c.contract in filter.value
  }

  /** What a fetch adds to its transfers. */
  function Distribution(transfers: seq<Transfer>, filter: ContractFilter, c: Custom, lo: int, hi: int): seq<Transfer> {
    if Asks(filter, c) && lo <= c.blockNumber <= hi then Added(transfers, c) else []
  }

  method AddCustomTokenDistribution(transfers: seq<Transfer>, lo: int, hi: int, filter: ContractFilter, c: Custom)
    returns (result: seq<Transfer>)
    ensures result == transfers + Distribution(transfers, filter, c, lo, hi)
  {
    result := transfers;
    if filter.Some? && lo <= c.blockNumber <= hi && c.contract in filter.value {
      result := AddTransfers(transfers, c);
    } else {
      assert transfers + [] == transfers;
    }
  }

  // ----- The added transfers stand behind the real ones of their block -----

  lemma {:induction false} LastRealIsGreatest(transfers: seq<Transfer>, block: int)
    ensures forall t :: t in transfers && t.blockNumber == block ==> t.logIndex <= LastRealLogIndex(transfers, block)
    ensures LastRealLogIndex(transfers, block) == 0
            || exists t :: t in transfers && t.logIndex == LastRealLogIndex(transfers, block)
    ensures LastRealLogIndex(transfers, block) >= 0
  {
    if transfers != [] {
      var init, last := transfers[..|transfers| - 1], transfers[|transfers| - 1];
      LastRealIsGreatest(init, block);
      assert transfers == init + [last];
    }
  }

  predicate NumberedFrom(added: seq<Transfer>, block: int, reached: int) {
    forall k :: 0 <= k < |added| ==> added[k].blockNumber == block && added[k].logIndex == reached + 1 + k
  }

  lemma {:induction false} NumberedPlaces(rows: seq<Row>, c: Custom, reached: int)
    ensures NumberedFrom(Numbered(rows, c, reached), c.blockNumber, reached)
  {
    if rows != [] {
      NumberedPlaces(rows[..|rows| - 1], c, reached);
    }
  }

  lemma {:induction false} NumberedCount(rows: seq<Row>, c: Custom, reached: int)
    ensures |Numbered(rows, c, reached)| == |Filter(rows, Usable)| <= |rows|
  {
    if rows != [] {
      var init, last := rows[..|rows| - 1], rows[|rows| - 1];
      NumberedCount(init, c, reached);
      assert rows == init + [last];
      FilterSnoc(init, last, Usable);
    }
  }

  /** The added transfers are numbered on from the last of their block, one for each usable line. */
  lemma AddedPlaces(transfers: seq<Transfer>, c: Custom)
    ensures NumberedFrom(Added(transfers, c), c.blockNumber, LastRealLogIndex(transfers, c.blockNumber))
    ensures |Added(transfers, c)| == |Filter(c.rows, Usable)| <= |c.rows|
  {
    NumberedPlaces(c.rows, c, LastRealLogIndex(transfers, c.blockNumber));
    NumberedCount(c.rows, c, LastRealLogIndex(transfers, c.blockNumber));
  }

  function TransferInBlock(block: int): Transfer -> bool {
    (t: Transfer) => t.blockNumber == block
  }

  lemma LastRealSnoc(transfers: seq<Transfer>, t: Transfer, block: int)
    ensures var before := LastRealLogIndex(transfers, block);
            LastRealLogIndex(transfers + [t], block) ==
            if t.blockNumber == block && t.logIndex > before then t.logIndex else before
  {
    assert (transfers + [t])[..|transfers|] == transfers;
  }

  /** Only the transfers of the block count. */
  lemma {:induction false} LastRealOfBlock(transfers: seq<Transfer>, block: int)
    ensures LastRealLogIndex(Filter(transfers, TransferInBlock(block)), block) == LastRealLogIndex(transfers, block)
  {
    if |transfers| > 0 {
      var init, last := transfers[..|transfers| - 1], transfers[|transfers| - 1];
      assert transfers == init + [last];
      LastRealOfBlock(init, block);
      FilterSnoc(init, last, TransferInBlock(block));
      LastRealSnoc(init, last, block);
      LastRealSnoc(Filter(init, TransferInBlock(block)), last, block);
    }
  }
}

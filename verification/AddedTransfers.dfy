/** The constant transfers of a contract, told from the lines of its file: erc20/lib/custom_token_distribution.ts. */
module AddedTransfers {
  import opened Common
  import opened FetchEvents
  import opened CustomDistribution

  /** A line that names a holder, tells a direction, and moves something. */
  predicate Moves(row: Row) {
    row.address != "" && (row.sign < 0 || 0 < row.sign) && 1 <= row.amount
  }

  /** The line's amount is minted to its holder when the sign is positive, and burnt from it when it is negative. */
  predicate TellsLine(t: Transfer, row: Row, c: Custom) {
    && t.amount == row.amount && t.transactionHash == row.hash && t.contract == c.contract
    && t.blockNumber == c.blockNumber && t.transactionIndex == -1
    && (row.sign >= 1 ==> t.sender == MINT_ADDRESS && t.receiver == row.address)
    && (row.sign <= -1 ==> t.sender == row.address && t.receiver == BURN_ADDRESS)
  }

  predicate TellLines(transfers: seq<Transfer>, rows: seq<Row>, c: Custom, reached: int) {
    && |transfers| == |rows|
    && forall k :: 0 <= k < |rows| ==> TellsLine(transfers[k], rows[k], c) && transfers[k].logIndex == reached + 1 + k
  }

  lemma TellSnoc(transfers: seq<Transfer>, rows: seq<Row>, c: Custom, reached: int, t: Transfer, row: Row)
    requires TellLines(transfers, rows, c, reached)
    requires TellsLine(t, row, c) && t.logIndex == reached + 1 + |rows|
    ensures TellLines(transfers + [t], rows + [row], c, reached)
  {
  }

  lemma UsableMoves(row: Row, c: Custom, index: int)
    ensures Usable(row) <==> Moves(row)
    ensures Usable(row) ==> TellsLine(TransferOf(row, c, index), row, c) && TransferOf(row, c, index).logIndex == index
  {
  }

  lemma {:induction false} NumberedTellLines(rows: seq<Row>, c: Custom, reached: int)
    ensures TellLines(Numbered(rows, c, reached), Filter(rows, Moves), c, reached)
  {
    if rows != [] {
      var init, last := rows[..|rows| - 1], rows[|rows| - 1];
      assert rows == init + [last];
      NumberedTellLines(init, c, reached);
      FilterSnoc(init, last, Moves);
      var before, index := Numbered(init, c, reached), reached + |Numbered(init, c, reached)| + 1;
      UsableMoves(last, c, index);
      if Moves(last) {
        TellSnoc(before, Filter(init, Moves), c, reached, TransferOf(last, c, index), last);
      }
    }
  }

  /**
   * What is added to the transfers: one for each line that moves something, in order, at the indexes behind the last
   * of the block.
   */
  lemma AddedTellLines(transfers: seq<Transfer>, c: Custom)
    ensures TellLines(Added(transfers, c), Filter(c.rows, Moves), c, LastRealLogIndex(transfers, c.blockNumber))
  {
    NumberedTellLines(c.rows, c, LastRealLogIndex(transfers, c.blockNumber));
  }

  /** The index reached is the greatest of the block's transfers, and 0 where that is not positive. */
  lemma {:induction false} LastRealIs(transfers: seq<Transfer>, block: int)
    ensures forall t :: t in transfers && t.blockNumber == block ==> t.logIndex <= LastRealLogIndex(transfers, block)
    ensures LastRealLogIndex(transfers, block) > 0 ==>
              exists t :: t in transfers && t.blockNumber == block && t.logIndex == LastRealLogIndex(transfers, block)
    ensures LastRealLogIndex(transfers, block) >= 0
  {
    if transfers != [] {
      var init, last := transfers[..|transfers| - 1], transfers[|transfers| - 1];
      LastRealIs(init, block);
      assert transfers == init + [last];
    }
  }
}
